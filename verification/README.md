# Verification of the mesh daemon

A Dafny model of the daemon that runs an agricultural mesh network: the tree of known nodes that route
reports rebuild, the connection state derived from it, and the smaller cores around it (permissions, file
transfer, sensor history, alarms, requests in progress, job packets, CSV and addresses as text). What the
source changes in place is a class here, with the same fields, loops and branches; each method is proved
against a specification function on values, and the properties are lemmas about those functions.

| file | what it models |
|---|---|
| addresses.dfy, bytes.dfy | addresses, node names, four-byte integers |
| forest.dfy, topology.dfy | ordered forests as child lists; what each tree operation does to one |
| memory.dfy, node.dfy | the pointer fields of all nodes as a value; `Tree::node` on the heap |
| reports.dfy, device_tree.dfy | one route report; `Tree` on the heap |
| root_devices.dfy, layers.dfy, change_flag.dfy | the endpoints, the layers and the change flag of one report |
| effects.dfy, contract.dfy, pruning.dfy, cut.dfy | what a report keeps, its contract, what one pruning pass leaves, exact removal |
| breaking.dfy, mending.dfy | pointer writes that leave no forest; what update's own repair makes of them |
| convergence.dfy, witnesses.dfy | one round of true reports; runs from boot that show where the source fails |
| connection.dfy, routes.dfy, instance.dfy | cached connection state and events; route packets and the device list; the instance that drives the tree |
| users.dfy, user_list.dfy, memberships.dfy, authorization.dfy | groups, policies, the cached permissions; what each operation is for |
| blocks.dfy | block-wise transfer (RFC 7959) |
| sensors.dfy, alarms.dfy, requests.dfy, jobs.dfy, csv.dfy, mac_text.dfy | the remaining cores |

How the tree is read: a forest is a map from nodes to child lists. The pointers *carry* a forest (`Shape`) when
each list is the `next` chain from `children` and its members point back to the owner. Nothing is asked of
the fields of a node in no list, so stale pointers are allowed, as removal leaves them. A list is *torn*
(`Torn`) when its chain goes on, behind its members, with nodes that `add_child` has taken from it; the
operations are proved on such pointers too. A report is *orderly* (`Orderly`) when its parent is neither the device
nor below it and no listed address is the device, the parent or above one of them; it *fits* (`Fits`) when it
tears no list besides. A children table means all descendants.

Some results are about where the source does not do what it seems meant to do. Each comes with its exact
condition and, where the input is not the condition itself, a run or an input that shows it:

- `add_child` never takes the child out of another list (`Memory.HangExact`), and the repair at the end of `update`
  finds only lists that begin with a node of another parent, never the root's: `Mending.MendExact`,
  `Mending.DeviceMoved`, and `Convergence.RoundExact` for a round of reports. A device that changes its parent is
  repaired if it was first in the old list (`Witnesses.ParentChange`) and not if it was second
  (`Witnesses.SecondChild`).
- Removal resets first children only, so an endpoint deeper on that spine can be left off layer 1:
  `Cutting.CutRoots`, `Witnesses.RouterRemoved`.
- The size of a file is cast to 32 bits, and a file of whole blocks needs an empty one to end:
  `Blocks.TransferExact`, `Blocks.NeverTold`, `Blocks.ToldTooEarly`.
- The log is read back in order of whole seconds only: `Sensors.RestartExact`, `Sensors.TiesExchanged`.
- The "greater" and "greater or equal" comparisons of alarm rules do each other's work: `Alarms.NamesExact`,
  `Alarms.LimitMet`.
- The parser of addresses counts good groups and stops at the first bad one, so it accepts an address with
  something after it: `MacText.SixColons`, `MacText.TrailingAccepted`.

Adding a group always returns false, and the model does too.

## Model

| member | source | states |
|---|---|---|
| TreeNode.Node.UndoBranch | src/device/tree.cpp:26-36 | clears exactly the first-child spine below the node, because `next` is null before the loop reads it; terminates below every node no torn list is under |
| TreeNode.Node.IsDescendent | src/device/tree.cpp:60-68 | true iff a non-empty chain of child links leads from the node to the address, wherever no torn list is the node's or below it |
| TreeNode.Node.Bypass | src/device/tree.cpp:45-52 | the one pointer write takes exactly this member out of the list, torn or not; all other lists stay, and no list holds it any more |
| TreeNode.Node.RemoveChild | src/device/tree.cpp:38-58 | true iff the address is a member of the node's own list, torn or not; the pointers then carry the forest without that member, its first-child spine reset |
| TreeNode.Node.AddChild | src/device/tree.cpp:287-318 | on any sound tree, lists torn before included, and any child: it is appended unless the walk along this very list meets it, and the flag says which. On a tree without torn lists the pointers then carry the forest with that link, or no forest at all if the child cannot hang there; and a child another list holds is taken: that list stops short of it, torn |
| Memory.HangExact | src/device/tree.cpp:287-318 | since `add_child` never unlinks, its pointer writes leave some forest iff the child is already in this list, or sits in no list and the parent is not below it |
| Memory.HangTears | src/device/tree.cpp:287-318 | otherwise the child is appended, which raises the flag, and the pointers carry no forest |
| Memory.TakeTorn | src/device/tree.cpp:287-318 | a child taken from another list, the parent not below it: the pointers are those of the forest in which it is the parent's last child and its old list ends before it, but for that old list's chain, which still goes on to it |
| Memory.FollowTorn | src/device/tree.cpp:112-119 | a router appended behind the device the root has just lost to it is no child of the root: the root's chain and the router's own list both go on to it |
| Memory.MendTorn | src/device/tree.cpp:150-154 | clearing `children` of a torn list whose members are all gone leaves exactly that list empty and untorn |
| Memory.TornNone | src/device/tree.cpp:287-318 | as long as one list's chain goes on to a node of another parent, the pointers carry no forest at all |
| Topology.DropChildFrame | src/device/tree.cpp:38-58 | removing a child touches no list or layer outside the removed subtree except the owner's list |
| Topology.RehangSafe | src/device/tree.cpp:261-270 | re-hanging leaves a forest also for an ancestor of the device, if a list holds it: taken out, it loses its own list |
| DeviceTree.Tree.constructor | src/device/tree.cpp:80-84 | a new tree is sound and holds the root alone |
| DeviceTree.Tree.GetNode | src/device/tree.cpp:276-285 | an unknown address gets one detached node with no layer and no children; a known one is found; nothing else changes |
| DeviceTree.Tree.CutBelow | src/device/tree.cpp:212-228 | true iff the address is below the node, which is then cut out of the list that holds it |
| DeviceTree.Tree.RemoveNode | src/device/tree.cpp:207-228 | true iff the address is reachable from the root; then the node is cut and its endpoint dropped, else nothing changes |
| DeviceTree.Tree.RemoveDescendent | src/device/tree.cpp:230-253 | the recursive pass, whose loop ends at the first pruned child, leaves the forest and the flag of `Prune` |
| DeviceTree.Tree.Unhang | src/device/tree.cpp:264-267 | following a possibly stale parent pointer takes the node out of whatever list holds it, also when lists elsewhere are torn |
| DeviceTree.Tree.AddOne | src/device/tree.cpp:261-270 | on any sound tree and any address: one not below the device is created, taken out of its list and appended to the device's; this carries the re-hung forest or, for a listed address that cannot hang there, none, and a change is reported in either case. The same with torn lists elsewhere, for an address above neither them nor the device |
| DeviceTree.Tree.AddDescendent | src/device/tree.cpp:255-274 | every table whose writes all leave a forest, also one that lists ancestors of the device, is re-hung in order with the flag of `AddBelow`; the device loses its parent pointer exactly when a listed ancestor's reset runs through it. With torn lists elsewhere the same for tables that list nothing above them or the device |
| DeviceTree.Tree.Place | src/device/tree.cpp:94-119 | for every report whose parent is not the device or below it, whatever lists hold the two: both are known, layered and hung, a layer-0 parent under the root, and what torn lists go on with is exactly `TailsOf`; the flag says whether a list changed |
| DeviceTree.Tree.Update | src/device/tree.cpp:94-129 | for every report that is followed to the end (all writes leave a forest, or lists are torn and the table lists nothing above the two ends): pointers, endpoints and flag are those of its specification after the source's own repair, every step terminates, and a tree is valid again iff no list is left torn, else its pointers carry no forest. The endpoints also address by address: the parent still pointed to has one if it is at layer 1, else the device if it is, else the device has none; all others keep theirs unless known off layer 1 |
| DeviceTree.Tree.FixPointers | src/device/tree.cpp:143-155 | at one node, for torn lists too: `children` is cleared iff the node's list is torn and has no member left |
| DeviceTree.Tree.FixInconsistencies | src/device/tree.cpp:134-165 | the torn lists left are the root's and those that still have a member; exactly the endpoints of known nodes off layer 1 go; the flag says whether a list was cleared or an endpoint went |
| DeviceTree.Tree.ManageDeviceRootEndpoint | src/device/tree.cpp:167-193 | the parent still pointed to, if at layer 1, else the device, if at layer 1, has its old endpoint or else the reported one; else the device has none; all other endpoints stay |
| DeviceTree.Tree.Unconnected | src/device/tree.cpp:320-332 | exactly the known nodes no chain of child links from the root reaches |
| DeviceTree.Tree.ReadDeviceList | src/device/tree.cpp:86-92 | every listed address becomes a known, detached node |
| Reports.HungSound | src/device/tree.cpp:96-119 | placing a report whose parent is not the device or below it keeps the forest well-formed, links and layers both ends, also when one is taken from another list, and puts no listed address above the device that was not there |
| Reports.TailsNone | src/device/tree.cpp:112-119 | the two `add_child` calls tear no list iff both ends can be hung; if they tear one, some list changed |
| Reports.TailsApart | src/device/tree.cpp:112-129 | no torn list is reached from the device, nor from what a table lists that lists nothing above the two ends: so the rest of the update terminates and does not touch them |
| Contract.ReportContract | src/device/tree.cpp:94-129 | after every orderly report, one that takes its device or router from another list included, the tree is well-formed, the device under its parent, both with the reported layers, a router under the root unless the root had to lose the device to it, and every listed address is a descendant of the device |
| Contract.ReportLinks | src/device/tree.cpp:94-129 | for every report followed to the end, each link afterwards is an old one, the reported one, the router's, or one from the device to a listed address |
| Contract.PruneFlag | src/device/tree.cpp:230-253 | the flag is up iff some node below the device is unlisted, and nothing changes when it is down |
| Pruning.PruneLists | src/device/tree.cpp:230-253 | for every node, what one pass leaves of its list: a visited list loses its first unlisted member, any other stays; only at or below a lost member may a list be empty instead |
| Pruning.PruneUnlinks | src/device/tree.cpp:230-253 | the pass breaks a link only by losing a first unlisted member that is the node linked to or above it |
| Pruning.UnlinksOnly | src/device/tree.cpp:230-274 | an orderly report breaks a link only so, by re-hanging a listed address not yet below the device, or in a list its `add_child` calls tore |
| Contract.AllBelow | src/device/tree.cpp:255-274 | afterwards every listed address is below the device |
| Contract.AddBelowFlag | src/device/tree.cpp:255-274 | the flag is up iff some listed address was not below the device, and nothing changes when it is down |
| Contract.QuietReport | src/device/tree.cpp:94-129 | for every report on a sound tree: a false change flag means that every pointer write left a forest, no node was created and no child list changed |
| Contract.ReportRoots | src/device/tree.cpp:134-193 | after every report followed to the end each endpoint key is a known node at layer 1 |
| RootDevices.EndpointsExact | src/device/tree.cpp:134-193 | after every orderly report: on layer 2 the parent is a root device, on layer 1 the device is, with the old endpoint or else the reported one; on any other layer than 1 the device is none; every other device is one iff it was and is not known off layer 1, with its endpoint |
| RootDevices.EndpointsSettle | src/device/tree.cpp:134-193 | the same for every report followed to the end, by the layers then and by whether the device still points to its parent |
| Layers.ReportLayers | src/device/tree.cpp:255-318 | after every orderly report each listed address that was not below the device when its turn came has the layer below the reported one; one that was keeps its own |
| Layers.ListedNoRoot | src/device/tree.cpp:134-193 | so a root device that another device newly reports below itself is a root device no more |
| ChangeFlag.FlagExact | src/device/tree.cpp:94-157 | for every report on a sound tree: the change flag is down iff both links are there, what is below the device is exactly what the table lists, and no endpoint goes but the device's own on a layer other than 2 |
| Breaking.BreaksMeans | src/device/tree.cpp:287-318 | an `add_child` that breaks appends, so it reports a change, and whatever pointers carried the forest carry none afterwards |
| Breaking.OneBreaks | src/device/tree.cpp:261-270 | a listed address breaks iff it is the device, or is above the device and in no list |
| Breaking.WholeExact | src/device/tree.cpp:94-129 | all pointer writes of a report leave a forest iff none of its `add_child` calls breaks: the device's, the router's, or that of a listed address at its turn |
| Mending.AddBelowList | src/device/tree.cpp:255-274 | a list not below the device, and above nothing listed, loses exactly its listed members to the table |
| Mending.MendExact | src/device/tree.cpp:94-157 | after an orderly report `update` leaves a forest iff every list that lost the device or the router to it is another node's than the root's and held only listed addresses before the first of the two |
| Mending.DeviceMoved | src/device/tree.cpp:94-157 | for a device that changes its parent: iff the old parent is not the root and every sibling before the device is listed |
| Mending.MovedLeaves | src/device/tree.cpp:94-157 | then the old parent's list is empty, and unlisted siblings behind the device are in no list any more |
| Mending.IntactExact | src/device/tree.cpp:94-157 | which reports of all are known to end with a forest: those whose every write leaves one, and the orderly ones that mend what they tear |
| Mending.RootStillLists | src/device/tree.cpp:112-157 | when the update of a device right under the root ends, the root's chain still goes on to it, the pointers carry no forest, and a router that did not stand before it is in its own list |
| Cutting.CutExact | src/device/tree.cpp:207-228 | the reachable set afterwards is the old one minus exactly the removed node's whole subtree, though only a spine is reset |
| Cutting.CutRest | src/device/tree.cpp:212-228 | outside the removed subtree lists and layers stay, but for the removed member |
| Cutting.CutInside | src/device/tree.cpp:26-36 | inside it, first children are reset and all other lists are stranded as they were |
| Cutting.CutRoots | src/device/tree.cpp:212-228 | removal keeps every endpoint at layer 1 iff no other endpoint sits on the removed node's first-child spine |
| Witnesses.RouterRemoved | src/device/tree.cpp:212-228 | a run from boot: the removal of a router leaves the endpoint of the device under it off layer 1 |
| Cutting.CutKeepsRoots | src/device/tree.cpp:212-228 | so it does when layers are depths and the removed node is at layer 1 or deeper |
| Convergence.TrueReportStep | src/device/tree.cpp:94-129 | a true report that is next in parent-first order fits, keeps all that earlier ones settled and settles its own device |
| Convergence.RoundConverges | src/device/tree.cpp:94-129 | from a sound tree with links only from real ancestors to descendants and none from the root to a layer-1 device, one round of true reports, parents first, runs through and leaves exactly the real links and layers |
| Convergence.RoundExact | src/device/tree.cpp:94-129 | for links from real ancestors to descendants, the root included, a round runs through, a forest at the end of each update, and ends in the real mesh iff no layer-1 device hangs right under the root |
| Convergence.RoundStops | src/device/tree.cpp:94-157 | else it comes to a report whose update, followed to its end, leaves no forest, and the root still lists a device there |
| Convergence.TrueReportOrderly | src/device/tree.cpp:94-129 | a true report on such links never hangs a device below itself and lists nothing above its two ends |
| Convergence.RootLinkEnds | src/device/tree.cpp:112-157 | the own true report of a device right under the root is such a report: its update ends with the root's list torn, going on with the device |
| Convergence.RootLinkStays | src/device/tree.cpp:94-129 | no other device's true report takes it away from the root |
| Witnesses.ParentChange | src/device/tree.cpp:112-157 | a run from boot: a device, first in its parent's list, reports a second parent; the report tears that list, and the same update repairs it: the old parent has no child, the new one has the device |
| Witnesses.SecondChild | src/device/tree.cpp:112-157 | the same with another device before it in the list: no forest is left |
| Witnesses.RouterThatIsNone | src/device/tree.cpp:112-157 | a run from boot that brings a layer-1 device right under the root, whose own true report then leaves no forest |
| Instances.Instance.constructor | src/instance/agro.cpp:108-111 | at boot every stored device is listed, known to the tree and unconnected |
| Instances.Instance.Differences | src/instance/tree.cpp:35-48 | each listed device whose state differs is named once, with its new state, and no other |
| Instances.Instance.CheckDeviceState | src/instance/tree.cpp:30-67 | the cache becomes the tree's answer and the log grows by exactly the differences |
| Instances.Instance.UpdateTree | src/instance/tree.cpp:18-28 | one step of the connection protocol for every report after which `update` is known to end with a forest, a repaired one included: the cache is refreshed iff the flag is up. The device list takes over the sender's endpoint as `Routes.ReachedAnswers` says |
| Instances.Instance.RemoveNodeFromTree | src/instance/tree.cpp:6-16 | likewise for a removal, which succeeds iff the node was reachable |
| Instances.Instance.UpdateRouteData | src/device/resources/process.cpp:161-193 | for the packet of any access point, layer below 2^16 and table: the sender's layer, parent, table and endpoint as meant, an entry under the sender for every child not yet listed, all others as they were |
| Instances.Instance.ProcessRoute | src/device/resources/process.cpp:21-47 | a short packet changes nothing; the packet of any access point, layer below 2^16 and table, after whose report `update` is known to end with a forest, leaves exactly these in the device list and takes the step of the report that was meant |
| Routes.RouteRead | src/device/resources/process.cpp:161-193 | the six bytes of an access point, a layer with its high byte first and the bytes of a table are read as that layer, that table in order, and as parent the access point itself on layer 1, else the address whose last byte is one lower, 255 below 0 |
| Routes.AnyRoute | src/device/resources/process.cpp:161-193 | every payload of eight bytes and whole addresses is such a packet |
| Routes.RouteLearned | src/device/resources/process.cpp:150-193 | the device list afterwards, device by device: the sender as reported, each new child one layer below it with its endpoint, and of all others only the endpoint of a child or of the parent from layer 2 on changes |
| Routes.ReachedAnswers | src/device/tree.cpp:368-392 | the listed devices of the table and, from layer 2 on, the listed parent get the sender's endpoint; nothing else of the device list changes |
| Connection.BootAgrees | src/instance/agro.cpp:108-111 | at boot the cached set is the tree's own answer |
| Connection.StepAgrees | src/instance/tree.cpp:6-67 | as long as the tree is known to carry a forest when each operation ends, every operation keeps cache, tree and endpoint keys in agreement, also when it refreshes nothing |
| Connection.Snapshot | src/instance/tree.cpp:6-67 | in every run from boot, after every operation, over repaired reports too, the cache is exactly the known nodes no chain of child links reaches, up to the first report after which `update` is not known to end with a forest |
| Connection.GoesOn | src/instance/tree.cpp:18-28 | that goes on over an operation iff it is no report, or a report whose every write leaves a forest, or an orderly one that mends what it tears |
| Connection.Trace | src/instance/tree.cpp:30-67 | in every run, whatever its reports leave of the tree, from the moment a device is listed its events strictly alternate, and replayed over its state then give "not in the cache" |
| Users.GroupPolicyMeans | src/user/policy.cpp:9-21 | a group gives a user a bit iff the user is in it and one of its policies has the bit |
| Users.PolicyMeans | src/user/policy.cpp:23-32 | the computed policy shares a bit with a rule iff some policy of some group with the user does |
| Users.GrantsNothing | src/user/policy.cpp:23-32 | it is empty iff every policy of every group with the user is |
| Authorization.GroupList.Add | src/user/group.cpp:71-81 | appended iff neither id nor name is taken |
| Authorization.GroupList.Remove | src/user/group.cpp:83-96 | the first group with the id goes; true iff there was one |
| Authorization.GroupList.AddUser | src/user/group.cpp:98-110 | the user joins the first group with the id; with unique ids: it is added last to that group's members unless one of them, nothing else changes, and the result is true iff a group with the id did not hold it |
| Authorization.GroupList.AddUserToGroups | src/user/group.cpp:122-132 | the user joins exactly the existing groups listed |
| Authorization.GroupList.RemoveUserFromAll | src/user/group.cpp:134-140 | one occurrence of the user goes from every group |
| Authorization.UserList.GetPolicy | src/user/policy.cpp:9-32 | both loops together compute the bitwise or over groups and policies |
| Authorization.UserList.UpdateUserPolicy | src/user/list.cpp:176-182 | only this user's cached policy is recomputed |
| Authorization.UserList.UpdateAllPolicies | src/user/list.cpp:189-195 | every listed user's cached policy is recomputed |
| Authorization.UserList.Add | src/user/list.cpp:7-16 | a new user with no policy, unless the id is taken |
| Authorization.UserList.Remove | src/user/list.cpp:18-28 | the user leaves the list but not the groups |
| Authorization.UserList.AddGroup | src/user/list.cpp:100-108 | adds the group and refreshes all policies, but always returns false, because the second add clashes with the first |
| Authorization.UserList.RemoveGroup | src/user/list.cpp:110-119 | removes the group and refreshes all policies iff it existed |
| Authorization.UserList.AddUserToGroup | src/user/list.cpp:131-137 | joins one group, as above, and refreshes this user iff the membership is new |
| Authorization.UserList.AddUserToGroups | src/user/list.cpp:139-143 | joins the listed groups and refreshes this user |
| Authorization.UserList.RemoveUserFromAllGroups | src/user/list.cpp:145-148 | leaves every group and refreshes nothing |
| Authorization.UserList.EditUser | src/user/list.cpp:156-174 | new data with the old status, new memberships, and a fresh policy for this user |
| Authorization.UserList.AddPolicy | src/user/policy.cpp:34-44 | appended iff the policy id is new |
| UserLists.StepCurrent | src/user/list.cpp:100-195 | every operation, called as its callers do, keeps each listed user's cached policy equal to the recomputed one |
| UserLists.StepGroupsOk | src/user/group.cpp:71-140 | every operation keeps group ids and names unique and members duplicate-free |
| UserLists.RunOk | src/user/list.cpp:100-195 | both hold after every run |
| UserLists.Permission | src/user/policy.cpp:63-68 | at any point of a run a listed user may do a thing iff it is root or some policy of a group it is in shares a bit |
| UserLists.EditedMemberships | src/user/list.cpp:156-174 | editing leaves the user in exactly the existing groups that were listed |
| UserLists.AddUserExact | src/user/list.cpp:7-16 | adding a user keeps the cache current iff every policy of every group that already holds the id is empty |
| UserLists.PurgeExact | src/user/list.cpp:145-148 | purging a user still on the list keeps it current iff the user had no policy |
| Memberships.JoinExact | src/user/group.cpp:11-19 | with unique ids: after joining a group its members are the old ones and the user, every other group, and all ids, names and descriptions stay; a change iff a group with the id did not hold the user |
| Memberships.GroupsExact | src/user/group.cpp:71-140 | every operation, on groups in order: which groups there are afterwards, in which order, under which data, and who is in each |
| Memberships.UsersAfter | src/user/list.cpp:7-174 | every operation: who is listed afterwards, and under which data; an edited user keeps its status only |
| Memberships.CacheAfter | src/user/list.cpp:100-195 | every operation, the cache current before or not: whose cached policy is recomputed, all others' untouched, a new user's empty |
| Memberships.PoliciesAfter | src/user/policy.cpp:34-44 | every operation: which policies there are afterwards |
| Blocks.Serve | src/device/resources/ota.cpp:30-123 | the answer to a block request: out of bound past the end, else size, number, more flag and the bytes at the offset |
| Blocks.AnswerExact | src/device/resources/ota.cpp:46-118 | for any block number, more bit and size exponent: out of bound iff the block begins past the size, else the bytes there are, the same number and exponent back, and the more bit iff they fill the block |
| Blocks.NeverOutOfBound | src/device/resources/app.cpp:17-125 | a request inside the file that a client can make is answered with the asked block, its bytes, and the more flag iff a whole block fits |
| Blocks.NextFits | src/device/resources/ota.cpp:51-72 | after a whole block the position is a multiple of any smaller block size, so a client may lower it (section 2.4 of RFC 7959) |
| Blocks.FetchesAll | src/device/resources/ota.cpp:40-123 | following the more flag, with any lowering of the block size on the way, collects the file from its start, and all of its size cast to 32 bits once the flag is down |
| Blocks.TransferExact | src/device/resources/ota.cpp:40-80 | the client gets the whole file and is told so iff the number of the file's last block, empty or not, in the block size it settles on, is below 2^20; such a file's length survives the cast |
| Blocks.DoneExact | src/device/resources/ota.cpp:65-80 | the more flag goes down for a client iff the last block of the cast size has a number below 2^20 |
| Blocks.NeverTold | src/device/resources/ota.cpp:76-80 | 2^24 bytes in blocks of sixteen: the empty block that would end the transfer cannot be asked for |
| Blocks.ToldTooEarly | src/device/resources/ota.cpp:40 | a file of 2^32 bytes or more: the client may be told that a beginning is all |
| Blocks.FetchCount | src/device/resources/ota.cpp:65-80 | with one block size exactly size / block + 1 responses are needed, as far as twenty-bit block numbers go |
| Blocks.FetchBounds | src/device/resources/ota.cpp:65-80 | with lowering on the way, at least as many as the first size and at most as many as the size settled on would take; where block numbers run out, at least what the first size takes to that point |
| Sensors.ValueList.Add | src/sensor/impl/value_impl.hpp:27-36 | appends, and evicts the oldest beyond twenty |
| Sensors.ValueList.AddChange | src/sensor/impl/value_impl.hpp:56-71 | appends iff the value differs from the newest |
| Sensors.SensorList.Add | src/sensor/sensor_list.cpp:45-67 | only the window of the key changes, created if missing; the result says whether the reading was added |
| Sensors.SensorList.ReadValues | src/db/sensor.cpp:108-156 | replaying the query answers backwards gives each key its answer in time order |
| Sensors.Station.UpdateValue | src/instance/sensor.cpp:76-93 | memory and log take the reading together or not at all |
| Sensors.Station.UpdateFrame | src/instance/sensor.cpp:60-74 | every whole reading of the frame in order, and the number added |
| Sensors.PacketRoundTrip | src/sensor/sensor_type.hpp:55-59 | the eight bytes of a reading decode to its type, index and signed value |
| Sensors.PacketLayout | src/sensor/sensor_type.hpp:55-59 | any eight bytes: the type in the first three, lowest first, the index in the next, the signed value in the last four, lowest first |
| Sensors.FrameRead | src/instance/sensor.cpp:60-93 | a frame of any readings and a rest too short for one is read as those readings in order, each with the clock at it and the filter of its type |
| Sensors.RunAgrees | src/instance/sensor.cpp:76-93 | after any readings each key's window is exactly the last min(20, n) of its n logged rows |
| Sensors.RestartExact | src/db/sensor.cpp:127-154 | every order the query may give brings the window back iff each kept reading is later than all before it or repeats them entirely |
| Sensors.RestartAgrees | src/db/sensor.cpp:108-156 | with increasing times per key, a restart rebuilds all windows from the log |
| Sensors.TiesExchanged | src/db/sensor.cpp:127-130 | two readings of one second may come back exchanged, since the query orders by time only |
| Sensors.FilterExact | src/sensor/impl/value_impl.hpp:56-71 | with the change filter on for a key, exactly the readings differing from the one before are logged and kept, and no two neighbours in the window are equal |
| Sensors.PlainExact | src/sensor/sensor_list.cpp:45-67 | without the filter every reading of a key is logged and the window holds the last of them |
| Alarms.Notify.Add | src/notify/notify.cpp:102-113 | the rule goes last under its key, and no other key changes |
| Alarms.Notify.Set | src/notify/notify.cpp:72-100 | under each type and index of the device exactly the given templates for it, in order, with their enabled flag, comparison and limit, switched off; the device has no other keys, and other devices keep theirs |
| Alarms.Notify.Can | src/notify/notify.cpp:153-186 | exactly the enabled rules under the key whose comparison holds and whose status was down fire, in order, with their status up; statuses follow the comparison |
| Alarms.SetExact | src/notify/notify.cpp:72-100 | the same of the replacement as a step of a run, key by key |
| Alarms.FiredMeans | src/notify/notify.cpp:153-186 | what a reading fires is the enabled rules that come on at it, in order |
| Alarms.SetThenFires | src/notify/notify.cpp:72-186 | in any run without another replacement, a given enabled rule fires at the first reading of its key that satisfies it |
| Alarms.NamesExact | src/notify/notify.cpp:131-151 | a comparison does what it is called iff it is not one of the two "greater" ones or the limit is not met exactly |
| Alarms.LimitMet | src/notify/notify.cpp:131-151 | a run in which a reading meets the limit: the "greater" rule fires and the "greater or equal" one does not |
| Alarms.OwnReadingsOnly | src/notify/notify.cpp:153-186 | in any run until its device's rules are replaced, a rule changes by its own key's readings only, and a disabled one not at all |
| Alarms.FiresOnEdge | src/notify/notify.cpp:153-186 | in any run from installation, an enabled rule fires at a reading iff the comparison holds there and there was none before or it failed at the last |
| Alarms.FiringsCountRuns | src/notify/notify.cpp:171-182 | there are as many firings as maximal stretches of readings that satisfy the rule |
| Requests.InProgressList.Has | src/device/request/in_progress.cpp:21-31 | true iff the key is listed |
| Requests.InProgressList.Add | src/device/request/in_progress.cpp:33-46 | appended iff the key is not listed |
| Requests.InProgressList.Remove | src/device/request/in_progress.cpp:48-65 | every entry with the key goes; true iff there was one |
| Requests.Server.ProcessRequest | src/device/request/request.cpp:251-358 | the checks in order, the entry before sending, and its removal when sending fails. A well-formed request is refused as not allowed iff the user is not root and its policy lacks the bit of the method, which changes nothing; where list and outstanding requests agree, every other outcome has its exact condition and effect too |
| Requests.Server.RequestCallback | src/device/request/request.cpp:34-95 | the key is removed on every path; without a response the device's node is removed from the tree, with the refresh that brings |
| Requests.FailedLeavesAll | src/device/request/request.cpp:330-343 | a failed send leaves list and outstanding requests as they were |
| Requests.OwnEntryOnly | src/device/request/request.cpp:93-95 | a callback removes exactly its own entry; one of a custom or unconfirmed request removes none |
| Requests.BusyExact | src/device/request/request.cpp:307-319 | an allowed request is refused as busy iff the same one to the same device is outstanding |
| Requests.AskedExact | src/device/request/request.cpp:251-358 | in any state of a run: not allowed iff the right is missing, busy iff it is there and the same listed request is outstanding, sent iff neither and the engine takes it; unless sent, no trace is left, else the key is outstanding and, if listed, entered under the user |
| Requests.RightNeeded | src/device/request/request.cpp:211-247 | which right each configured request takes |
| Requests.RunWanted | src/device/request/request.cpp:251-358 | in any interleaving every outstanding request was asked for by a user with the bit of its method, and every entry of the list names a user who asked for it with that right |
| Requests.OwnEntry | src/device/request/request.cpp:93-95 | a callback's entry is the one with its key, and all others stay in order |
| Requests.RunAgrees | src/device/request/request.cpp:251-358 | in any interleaving the list has no duplicate key and its keys are those of the outstanding confirmable requests that are not custom |
| Jobs.WritePacket | src/device/request/job.cpp:165-182 | writes exactly the twenty-two bytes of one job at the offset |
| Jobs.SendJobPayload | src/device/request/job.cpp:87-186 | the buffer starts with the packets of the well-formed items in order and is untouched after them |
| Jobs.Device.SetJobs | src/device/device.cpp:210-224 | whole packets replace the jobs; anything else changes nothing |
| Jobs.Device.SendJobResponse | src/device/request/job.cpp:30-50 | unless the answer is an error, what was sent becomes the device's jobs |
| Jobs.PacketRoundTrip | src/device/types.hpp:60-96 | one packet decodes to the job meant, its name cut to eleven characters whatever follows the terminator |
| Jobs.PacketLayout | src/device/types.hpp:59-71 | where each field of a packet lies, the argument's lowest byte first, the name from the tenth byte on and a terminator last |
| Jobs.TakenExact | src/device/request/job.cpp:107-185 | the items sent are the well-formed ones, and all of them |
| Jobs.RoundTrip | src/device/request/job.cpp:107-185 | decoding the written bytes gives exactly the well-formed items, in order |
| Jobs.MeantExact | src/device/request/job.cpp:165-180 | a job comes back as it was iff its numbers fit a byte and its name has at most eleven characters |
| Jobs.SendAndSet | src/device/request/job.cpp:30-50 | a list that was sent and accepted is the device's list |
| Csv.Writer.Column | src/libs/csv/writer.cpp:72-128 | a separator unless first in the row, then the cell, quoted iff it holds a separator, quote or line-break character |
| Csv.Writer.Row | src/libs/csv/include/csv/writer_impl.hpp:78-90 | the cells separated, then the line break |
| Csv.Writer.Nl | src/libs/csv/writer.cpp:65-70 | a line break, after which a row starts |
| Csv.CellExact | src/libs/csv/writer.cpp:72-128 | a cell is written as it is iff it holds no comma, quote, carriage return or line feed |
| Csv.RecordBack | src/libs/csv/writer.cpp:72-128 | reading a record gives back the row's cells and stops after its line break |
| Csv.RoundTrip | src/libs/csv/writer.cpp:65-128 | reading the text by section 2 of RFC 4180 gives back any table of non-empty rows |
| Csv.Injective | src/libs/csv/writer.cpp:65-128 | no two such tables are written alike |
| MacText.StringToMac | src/device/helper.cpp:22-64 | for any text, given room for them: one byte for each good group, of at most two hex digits, before the first bad one, the rest untouched; the result is their number |
| MacText.FromText | src/device/types.cpp:29-36 | the address iff exactly six groups lead, else an error and zero bytes; a text with seven leading groups is left out, as the source writes past the address |
| MacText.FiveColons | src/device/helper.cpp:14-17 | with at most five colons a text is accepted iff it is six groups, all good |
| MacText.SixColons | src/device/helper.cpp:22-64 | with more it is accepted iff six groups are good and the seventh is bad, and a seventh byte is written iff that one is good too |
| MacText.TrailingAccepted | src/device/helper.cpp:52-61 | so an address followed by a colon and a character that is neither a digit nor a colon is accepted |
| MacText.GroupsJoined | src/device/helper.cpp:28-41 | the groups are the pieces between the colons: joined they give the text, and none holds a colon |
| MacText.RoundTrip | src/device/types.cpp:71-82 | parsing the printed form of any address gives it back |
| MacText.PrintInjective | src/device/types.cpp:71-82 | no two addresses print alike |
| MacText.PrintExample | src/device/types.cpp:71-82 | one address as it is printed: the order of bytes and digits, lower case |
| MacText.CaseIgnored | src/device/helper.cpp:45-56 | a text in capitals is parsed to the same address, or not at all, as before |

## Left out

- DeviceTree.Tree.Update: three kinds of report are followed only to the write that leaves no forest. The parent is the
  device or below it, or a listed address is the device or a detached node above it: the writes close a cycle, and a
  recursion that comes to it does not end. Or a list is torn and the table lists something above an end of the report,
  for instance the device's old parent. Some of these may still end with a forest.
- Instances.Instance.UpdateTree: takes no report after which a list is left torn, since the query of the refresh that
  follows is about forests. `Connection.Step` lets such a step refresh to any answer or not at all, and `Connection.Trace`
  holds over it; `Connection.Snapshot` ends there.
- Convergence.RoundStops: follows a round to the end of the first update that leaves no forest, not beyond.
- Order of map iteration: loops over `std::map` take the keys in any order (sets here), so the order of events
  within one refresh is left open but for connects before disconnects.
- The endpoints `update` writes into the device list: `Routes.Reached` does that step, not the tree's method.
- Instances.Instance.ProcessRoute: takes only tables of whole addresses, because the source reads past the end
  of any other; the fields a packet does not use in the tree (net, time of the last packet) are not modelled.
- The full-configuration packet's second way to update the tree, and the `checking` flag of endpoints with the
  timer that checks them: only the effect of a removal is modelled.
- A device with the all-zero address, which is also the address of the daemon's own root: it is a node of its own
  here, told apart by name where the source compares addresses.
- The database: device states, groups and users are not compared with memory; the sensor log always appends.
- Clocks: times are given, and the 32-bit time does not wrap around. The notification a reading triggers is left
  out.
- Authorization.UserList: users and groups are values inside the lists' fields, so references into them (sessions,
  subscriptions) are not modelled. `set_user_to_groups` has no caller and bypasses the cache.
- Blocks.Serve: takes the file's content as given, so a file that changes or cannot be opened between two calls is
  not modelled. The option helpers follow section 2.2 of RFC 7959.
- Alarms: limits and readings are reals, not 32-bit floats, so not-a-number and rounding are left out.
- Requests: the JSON a request comes in is reduced to what is found in it; the transport is a list of outstanding
  messages whose callbacks run once each, and the handlers of successful responses are left out.
- Jobs.SendJobPayload: takes lists that fit the buffer, since the source does not look at its size, and names with
  at least twelve readable bytes, since it copies that many.
- Csv.Writer.Column: is for strings with the default separator and line break; numbers and single characters are
  written unescaped and not modelled. Characters beyond those the RFC's grammar lists are read as text.
- MacText.FromText: takes no text with seven leading groups, for which the source writes past the address.
- JSON, HTML, websockets, push, mail and Telegram delivery, passwords and sessions: plumbing around the above.
