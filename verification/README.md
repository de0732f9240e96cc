# Verified model of the GCE cloud provider's reconcilers

This project models the hardest parts of the Kubernetes cloud provider for Google Compute Engine and proves
what they promise. The centre is the external (layer 4) load balancer: the run that creates or updates one, the
run that deletes one, and any sequence of both.

**The cloud.** `CloudModel` is a set of maps: addresses, forwarding rules, target pools, health checks and
firewalls. Any request may fail, and a failed request may still have taken effect (a lost reply). A read may fail
too. Deleting a health check that a pool refers to answers "in use". Every world the cloud passes through is kept
in a ghost trace, so that contracts speak about each intermediate step and not only about the end of a run. A
cloud may be `reliable` (it answers every request as it should); contracts use that to say when a run *must*
succeed, so none of them is met by code that always gives up.

**What a step keeps** is `LoadBalancerSpec.StepOk`: each rule has its pool and each pool its checks; only
resources of the load balancer's own names change (plus the shared nodes check and its firewall); no health-check
number goes down; the firewalls of checks in use stay; a rule that appears is fully built, leads to its pool, and
that pool refers to exactly the checks told in advance; a virtual IP that is to be kept is at every moment on the
rule or reserved under the load balancer's name; no IP that another service has is taken; a tidy world stays tidy
for services that ask for no IP; and a settled load balancer does not change.

**What a run promises** is `ExternalLoadBalancer.EnsureResult`, from the world that the network-tier cleanup leaves
to the final one. The cleanup's errors are dropped by the code, so `MayClean` says which worlds it may leave. What
success means is said once more on the fields of the resources, in `LoadBalancerSpec.Serves`, without the functions
that build and compare them: which networks and ports the firewall lets through and to which IP, which ports the rule's
range text reads as, which instances the pool names, and what the health check asks.

**Files.** `Options`, `Sorting` (also text), `PortRanges`, `Firewalls`, `CloudModel`, `HealthChecks` (also names),
`TargetPools`, `LoadBalancerSpec`, `ExternalLoadBalancer` (the ensure run), `LoadBalancerRuns` (the delete and update
runs, histories, convergence, the virtual IP), `LoadBalancerRecovery` (one answered run after any history),
`LoadBalancerSurprises` (concrete runs for the findings below),
`SharedHealthCheck` (concurrent services and the lock), `AddressManager`, `InstanceGroups`, `Instances`, `Disks`,
`NodeZones`, `Cidr`, `NodeLabels`, `DockerAuth`, `NodeSyncer`. Verify everything with `dafny verify dfyconfig.toml`.

**Where the code does not do what one would expect.** Each is stated as an exact condition.

- After a successful run the pool refers to the check the service wants exactly when the backend was stale or the
  pool did so before (`LoadBalancerSurprises.WiredIff`). A service that gave up its local check, lost its pool and
  kept the check because deleting it failed, goes on with the nodes check; when it asks for a local check again, the
  left-over one is taken for the pool's own and the pool stays on the nodes check for good
  (`LoadBalancerSurprises.SwitchBack`).
- A delete run leaves the firewall of the service's own check exactly when the service still asks for a local check,
  that check is already gone and the firewall is not (`LoadBalancerRuns.LeaksFirewall`, part of `Gone`): the retry of
  a delete that failed on that firewall finds no check, names none and succeeds
  (`LoadBalancerSurprises.FirewallLeft`, `LoadBalancerSurprises.RetryLeaks`).
- A run that creates the rule leaves no address under the load balancer's name, except when the requested IP is
  reserved already. If a half-way failure reserved it under that very name, it counts as the user's and is never
  released (`LoadBalancerSurprises.OwnAddressStays`).
- A second ensure run right after a successful one rebuilds exactly when the first started with a local-traffic
  health check that had lost its pool, or when the second's own tier cleanup took the rule because the first one's
  had failed (`LoadBalancerRuns.Converges`).
- With its rule gone, a load balancer gets its IP back exactly when it is reserved under the load balancer's own
  name (`LoadBalancerRuns.ComesBackIffOwn`).
- For a TCP or UDP service with valid source ranges, distinct hosts, a pool without duplicates and no IP reserved
  twice (`Buildable`, `UniqueIPs`), a run whose every request is answered succeeds exactly when `IPUsable` holds of
  the world without rule and address of the wrong tier. It fails for as long as the load balancer's address name
  reserves some other IP while the rule's own IP is reserved by nobody: `ensureStaticIP` is told that the name is
  taken, looks for the rule's IP and does not find it (`LoadBalancerSurprises.StuckOnOtherIP`).
- The firewall of the shared health check is bound to the IP of whichever service had it written; the drift test does
  not compare that, so it stays bound to that one IP when other services create their pools
  (`HealthChecks.EnsureCheckFirewall`, `LoadBalancerSurprises.BoundToFirst`).
- The firewall of the wanted check lets probes through after a successful run exactly when the backend was stale or it
  did so before (`ExternalLoadBalancer.ProbesIff`). When the port of a local check changes, the check is updated and its
  firewall is not, so the new port stays closed (`LoadBalancerSurprises.PortChanged`).
- The firewall builder and the drift test disagree exactly for SCTP services and for an empty IP
  (`Firewalls.BuiltIsUpToDate`).
- An instance-group removal answered "not found" is ignored. A successful run is sure to end with the wanted nodes
  exactly when nothing has to be removed, or when something has to be added and the wanted nodes fill the group
  (`InstanceGroups.EndsExactly`). The code may ask for more than the 1000 members a group takes, and the run then
  fails, exactly when nodes have to go and to come and are more than 1000 together with the old ones
  (`InstanceGroups.RefusedIff`); exchanging one node of a full group is such a case (`InstanceGroups.OneTooMany`).
- A stale delete event leaves the zone index wrong exactly when it names another zone than the live node's
  (`NodeZones.StaleDelete`).
- The docker auth field round-trips exactly for user names without a colon (`DockerAuth.AuthRoundTrip`).
- Processing a node succeeds with the receiver holding another list than the node's accounts exactly when the node
  has none and the receiver's last list is not empty (`NodeSyncer.Process`, `NodeSyncer.EmptiedNode`): nothing is sent
  for a node without accounts.

## Model

| member | source | states |
|---|---|---|
| `ExternalLoadBalancer.EnsureExternalLoadBalancer` | providers/gce/gce_loadbalancer_external.go:58-297 | Every request of a run keeps `StepOk`, whatever fails. From the world the tier cleanup left, which the cloud passed through: on success the load balancer is fully built, the rule is new exactly when rule or backend was stale and otherwise untouched, the pool refers to the wanted check if it was made anew and to its old ones if not, a requested IP is the one returned, a virtual IP to keep is kept; the reserved set is as before, without the own name if the rule was created on an IP that was not requested as a reserved one; from a settled world nothing changes; with every request answered it succeeds if and only if an IP can be had; success means that the load balancer serves, said on the fields of firewall, rule, pool and check, and that probes reach the wanted check if the backend was stale |
| `ExternalLoadBalancer.ResultServes` | providers/gce/gce_loadbalancer_external.go:187-291 | What a successful run means: the firewall admits exactly the service's networks to exactly its ports on the IP, the rule's range reads as lowest to highest port and leads to the pool, the pool names exactly the hosts, the check asks path and port of the service, and its firewall lets exactly its probes through if the backend was stale |
| `LoadBalancerSpec.BuiltServes` | providers/gce/gce_loadbalancer_external.go:187-291 | Fully built, as the code compares resources, means serving, as their fields say |
| `LoadBalancerSpec.RangeTextSpans` | providers/gce/gce_loadbalancer_external.go:848-869 | For valid ports the text of the rule's range reads as the lowest and the highest port |
| `ExternalLoadBalancer.EnsureFor` | providers/gce/gce_loadbalancer_external.go:98-297 | The cleanup, then the run that starts from what it left, which keeps all that the whole run has to keep |
| `ExternalLoadBalancer.EnsureAndRelease` | providers/gce/gce_loadbalancer_external.go:110-297 | Holding, building and the deferred release driven by the two flags give the promised result |
| `ExternalLoadBalancer.Restarted` | providers/gce/gce_loadbalancer_external.go:98-108 | After the cleanup the run is as good as one that starts there |
| `ExternalLoadBalancer.EnsureHeld` | providers/gce/gce_loadbalancer_external.go:110-296 | Between cleanup and release: the flags say when the held address may go, and the IP is on the rule before it does |
| `ExternalLoadBalancer.ResultAssembled` | providers/gce/gce_loadbalancer_external.go:142-185 | The deferred release turns what the run left into what it promises, in each of its four ways of ending |
| `ExternalLoadBalancer.DeleteWrongTier` | providers/gce/gce_loadbalancer_external.go:1129-1138 | Touches only the rule and address of the load balancer's name, and only if of the wrong tier; with every request answered, exactly those are gone |
| `ExternalLoadBalancer.DeleteRuleOfWrongTier` | providers/gce/gce_loadbalancer_external.go:1142-1157 | Deletes the rule exactly if it is of the wrong tier, or fails to |
| `ExternalLoadBalancer.DeleteAddressOfWrongTier` | providers/gce/gce_loadbalancer_external.go:1161-1185 | Deletes the own-named address exactly if it is of the wrong tier, or fails to |
| `ExternalLoadBalancer.VerifyUserRequestedIP` | providers/gce/gce_loadbalancer_external.go:453-496 | A requested IP is accepted exactly when it is static and of the right tier, or is the rule's own; only a static one is user-owned |
| `ExternalLoadBalancer.ChooseIP` | providers/gce/gce_loadbalancer_external.go:162-185 | The IP returned is the requested one, else the rule's, else the reserved one; it counts as user-owned exactly when it was requested and is reserved; it is marked releasable only if this call reserved it; succeeds exactly when an IP can be had |
| `ExternalLoadBalancer.EnsureStaticIP` | providers/gce/gce_loadbalancer_external.go:1072-1118 | At most the own-named address is added, on an IP nobody reserved; success means the IP is reserved; "existed" means nothing changed; fails on an answering cloud exactly when the name is taken and the IP is not reserved |
| `ExternalLoadBalancer.FindHeld` | providers/gce/gce_loadbalancer_external.go:1103-1117 | The lookup by IP or by name finds the held IP exactly when it is reserved, or the name is |
| `ExternalLoadBalancer.ReserveStep` | providers/gce/gce_loadbalancer_external.go:1083-1097 | Whatever a reservation is answered, it keeps every step invariant, and a virtual IP to keep is then reserved under the own name |
| `ExternalLoadBalancer.ForwardingRuleNeedsUpdate` | providers/gce/gce_loadbalancer_external.go:757-794 | Reports exactly whether the rule exists and fits IP, port range and protocol |
| `ExternalLoadBalancer.EnsureFirewall` | providers/gce/gce_loadbalancer_external.go:187-215 | Touches one firewall only; on success the drift test accepts it, which means exactly the service's networks, ports and IP; no change when settled |
| `ExternalLoadBalancer.FirewallForCheck` | providers/gce/gce_loadbalancer_external.go:929-965 | On success the check's firewall opens exactly the check's port to exactly the configured networks, under the description of the service or of the cluster |
| `ExternalLoadBalancer.ProbesIff` | providers/gce/gce_loadbalancer_external.go:498-551 | After success probes to the wanted check get through if and only if the backend was stale or they did before |
| `ExternalLoadBalancer.InspectBackend` | providers/gce/gce_loadbalancer_external.go:217-257 | Reports exactly whether the backend is stale, and never "pool missing and not needed"; names the checks to delete |
| `ExternalLoadBalancer.EnsureServing` | providers/gce/gce_loadbalancer_external.go:217-291 | Success means fully built on the given IP with the pool on the checks told in advance; the release flag is cleared before the rule goes and set only once it is back |
| `ExternalLoadBalancer.TakeDownAndRebuild` | providers/gce/gce_loadbalancer_external.go:265-288 | The rule goes only while a virtual IP to keep is reserved; success means the new rule stands on a complete backend |
| `ExternalLoadBalancer.Rebuild` | providers/gce/gce_loadbalancer_external.go:275-288 | The rule is created last; what is left of the local check is exactly what the teardown did not name |
| `ExternalLoadBalancer.EnsureTargetPoolAndHealthCheck` | providers/gce/gce_loadbalancer_external.go:498-551 | Success means the pool holds exactly the hosts, its check is ready, and it refers to the wanted check if made anew, to its old ones if not; the branch marked panic-worthy is not reached; addresses, rules and the own firewall stay |
| `ExternalLoadBalancer.RecreatePool` | providers/gce/gce_loadbalancer_external.go:502-534 | Teardown then creation; a superseded local check is gone exactly if it was named, and a superseded shared check is in use by another pool or gone with its firewall |
| `ExternalLoadBalancer.CreateWithHosts` | providers/gce/gce_loadbalancer_external.go:513-534 | At most 200 hosts at creation, yet success ends with all hosts |
| `ExternalLoadBalancer.CreatePoolAndCheck` | providers/gce/gce_loadbalancer_external.go:553-595 | Firewall, then check, then pool with at most 200 hosts: no pool ever refers to a missing check, and on success the check's firewall opens exactly the check's port to exactly the configured networks |
| `ExternalLoadBalancer.CreateForwardingRule` | providers/gce/gce_loadbalancer_external.go:967-992 | Only on a ready backend and firewall; the rule carries the held IP and leads to the pool |
| `ExternalLoadBalancer.DeletePoolAndChecks` | providers/gce/gce_loadbalancer_external.go:386-446 | Success means the pool is gone and each named check is gone with its firewall or still used by another pool; nothing else goes |
| `ExternalLoadBalancer.TeardownStep` | providers/gce/gce_loadbalancer_external.go:386-446 | One request of the teardown keeps the step invariants, moves on by the answer, and ends after finitely many |
| `ExternalLoadBalancer.TeardownAnswer` | providers/gce/gce_loadbalancer_external.go:406-439 | Whatever a delete is answered, checks cleared before stay cleared and the next stage's facts hold |
| `LoadBalancerRuns.EnsureExternalLoadBalancerDeleted` | providers/gce/gce_loadbalancer_external.go:316-383 | For every interleaving of the three goroutines and every failure: each step is safe and only removes; success means no rule, pool, address, firewall or check of the load balancer is left, the shared check is gone unless another pool uses it, and the firewall of the own check is left exactly if it leaked; with every request answered it succeeds |
| `LoadBalancerRuns.StageUndisturbed` | providers/gce/gce_loadbalancer_external.go:346-378 | The firewall and address goroutines never disturb what the third one has achieved |
| `LoadBalancerRuns.ChecksToDelete` | providers/gce/gce_loadbalancer_external.go:326-344 | The local check is named exactly if the service does not ask for it or it is there; a service without a check path names both checks |
| `LoadBalancerRuns.UpdateExternalLoadBalancer` | providers/gce/gce_loadbalancer_external.go:299-313 | Only the members of the pool change, between old ∩ hosts and old ∪ hosts at every step; success means exactly the hosts, and none for a service without nodes; with every request answered it succeeds if and only if the hosts are distinct |
| `LoadBalancerRuns.Perform` | providers/gce/gce_loadbalancer_external.go:58-383 | Every request of an ensure, update or delete run is a step of a run that started where the operation did |
| `LoadBalancerRuns.Reconcile` | providers/gce/gce_loadbalancer_external.go:58-383 | Any sequence of ensure, update and delete runs of any services, with any failures, makes only steps of those runs |
| `LoadBalancerRuns.NeverBare` | providers/gce/gce_loadbalancer_external.go:265-291 | At every moment of every history each rule has its pool and each pool its checks |
| `LoadBalancerRuns.AlwaysOpen` | providers/gce/gce_loadbalancer_external.go:553-595 | At every moment of every history that starts so, each check that a load balancer's pool refers to, local or shared, has its firewall |
| `LoadBalancerRuns.BornFullyBuilt` | providers/gce/gce_loadbalancer_external.go:128-132 | Whenever a rule appears, an ensure run of that service has firewall, health check, affinity and the full host set in place, the rule leads to the pool, and the pool refers to the wanted check if and only if it was stale or did so when the run started |
| `LoadBalancerRuns.NumbersNeverDecrease` | providers/gce/gce_loadbalancer_external.go:681-717 | Over any history, no number of a health check goes down while it exists |
| `LoadBalancerRuns.Converges` | providers/gce/gce_loadbalancer_external.go:58-297 | The second of two successful runs rebuilds if and only if the first started with an orphaned local check or the second's cleanup took the rule; otherwise same IP, and an unchanged world once the tier is right |
| `LoadBalancerRuns.StaysUsable` | providers/gce/gce_loadbalancer_external.go:58-297 | A successful run leaves a world from which the next run can succeed |
| `LoadBalancerRuns.EnsureTwice` | providers/gce/gce_loadbalancer_external.go:58-297 | With every request answered, both of two runs succeed from a world of any tier, with the same IP and no further change unless a check was orphaned |
| `LoadBalancerRuns.KeepEnsuring` | providers/gce/gce_loadbalancer_external.go:133-185 | Over any number of runs, failed or not, of this service and of others that do not ask for the IP, an owned virtual IP is at every moment on the rule or reserved under the own name, and each successful ensure run of the service returns it |
| `LoadBalancerRuns.HomedStep` | providers/gce/gce_loadbalancer_external.go:1072-1118 | No step of any such run, the service's own or another's, takes the virtual IP away or puts another service on it |
| `LoadBalancerRuns.NeverLetGo` | providers/gce/gce_loadbalancer_external.go:265-291 | A run that keeps the rule's IP has it on the rule or statically reserved at each of its steps, under whatever name |
| `LoadBalancerRuns.OthersKept` | providers/gce/gce_loadbalancer_external.go:142-160 | No step of a run touches an address of another name |
| `LoadBalancerRuns.ComesBackIffOwn` | providers/gce/gce_loadbalancer_external.go:1072-1118 | With the rule gone, a successful run returns a reserved IP if and only if it is reserved under the own name |
| `LoadBalancerRecovery.AlwaysTidy` | providers/gce/gce_loadbalancer_external.go:58-383 | Over any history of services that ask for no IP and have distinct hosts: no IP is reserved twice, an address beside its rule is on the rule's IP, and no pool holds an instance twice, at every moment |
| `LoadBalancerRecovery.TidyIsUsable` | providers/gce/gce_loadbalancer_external.go:1072-1118 | In such a world nothing stands in the way of a run |
| `LoadBalancerRecovery.Recover` | providers/gce/gce_loadbalancer_external.go:58-383 | After any such history, whatever failed in it, one run whose every request is answered succeeds and leaves the load balancer fully built |
| `LoadBalancerSurprises.WiredIff` | providers/gce/gce_loadbalancer_external.go:226-257 | After success the pool refers to the wanted check if and only if the backend was stale or it did so before |
| `LoadBalancerSurprises.SwitchBack` | providers/gce/gce_loadbalancer_external.go:226-257 | In any well-formed world with a local check but no pool: two successful runs, to the nodes check and back, end settled with the pool on the wrong check |
| `LoadBalancerSurprises.FirewallLeft` | providers/gce/gce_loadbalancer_external.go:402-439 | A delete run that fails on the local check's firewall leaves a world that leaks it |
| `LoadBalancerSurprises.RetryLeaks` | providers/gce/gce_loadbalancer_external.go:326-344 | The retry succeeds and leaves that firewall although every request is answered |
| `LoadBalancerSurprises.OwnAddressStays` | providers/gce/gce_loadbalancer_external.go:453-496 | With the requested IP reserved under the own name, the rule is created and the address stays |
| `LoadBalancerSurprises.StuckOnOtherIP` | providers/gce/gce_loadbalancer_external.go:1072-1118 | With the own name on another IP and the rule's IP unreserved, the run fails although every request is answered |
| `LoadBalancerSurprises.BoundToFirst` | providers/gce/gce_loadbalancer_external.go:929-965 | When a second service ensures the shared check's firewall, it stays bound to the first one's IP |
| `LoadBalancerSurprises.PortChanged` | providers/gce/gce_loadbalancer_external.go:534-545 | A settled local check gets another port: the run succeeds, the check is asked on the new port, and its firewall still opens the old one only |
| `SharedHealthCheck.AlwaysSafe` | providers/gce/gce_loadbalancer_external.go:386-446 | In every run of any number of concurrent services, at every step, each pool that refers to the nodes check has that check and its firewall |
| `SharedHealthCheck.InvKept` | providers/gce/gce_loadbalancer_external.go:553-595 | One request or lock operation of any service keeps the invariant that gives safety |
| `SharedHealthCheck.SafeStep` | providers/gce/gce_loadbalancer_external.go:553-595 | A move is safe given what its service knows at its point |
| `SharedHealthCheck.OthersAssured` | providers/gce/gce_loadbalancer_external.go:396-400 | The lock keeps what every other service inside its section knows |
| `SharedHealthCheck.NobodyUses` | providers/gce/gce_loadbalancer_external.go:404-426 | Once the check was deleted or found missing, no pool refers to it, so its firewall may go |
| `SharedHealthCheck.LockKept` | providers/gce/gce_loadbalancer_external.go:396-400 | The lock is held by exactly the service inside the section |
| `SharedHealthCheck.LockIsNeeded` | providers/gce/gce_loadbalancer_external.go:561-565 | Without the lock there is a run, from a state in which all services are idle, to a pool whose check has no firewall |
| `SharedHealthCheck.TeardownMoves` | providers/gce/gce_loadbalancer_external.go:386-446 | Each request of the teardown on the pool and the shared pair is a move of this machine, and the answer leads where the teardown goes on |
| `SharedHealthCheck.TeardownOnTheSide` | providers/gce/gce_loadbalancer_external.go:402-439 | Its other requests disturb neither pools nor the shared pair |
| `SharedHealthCheck.DeletesOnTheSide` | providers/gce/gce_loadbalancer_external.go:346-366 | Nor do those of the other two goroutines of a delete run |
| `SharedHealthCheck.CreationMoves` | providers/gce/gce_loadbalancer_external.go:553-595 | All that creating pool and check does for the shared check is a way of this machine through the locked section |
| `SharedHealthCheck.FirewallMoves` | providers/gce/gce_loadbalancer_external.go:929-965 | Ensuring the check's firewall is a way from reading the firewall to reading the check, or out |
| `SharedHealthCheck.CheckMoves` | providers/gce/gce_loadbalancer_external.go:719-751 | Ensuring the check is a way from reading it to making the pool, or out |
| `HealthChecks.MergeSettles` | providers/gce/gce_loadbalancer_external.go:681-717 | Merging leaves nothing to update and lowers nothing |
| `HealthChecks.EnsureHTTPHealthCheck` | providers/gce/gce_loadbalancer_external.go:719-751 | At most one request, on that check alone; numbers only grow; success means no update is needed; a ready check is left alone |
| `HealthChecks.EnsureCheckFirewall` | providers/gce/gce_loadbalancer_external.go:929-965 | At most one request; success means the drift test on the check's firewall passes and exactly the probes get through; a firewall that fits is left alone, another is written and bound to the IP |
| `HealthChecks.CheckFirewallMeans` | providers/gce/gce_loadbalancer_external.go:950-954 | A firewall that passes the drift test opens exactly the check's port to exactly the configured networks |
| `HealthChecks.WriteFirewall` | providers/gce/gce_loadbalancer_external.go:994-1029 | Touches that firewall alone; success means it is what the builder made |
| `Names.DistinctNames` | providers/gce/gce_loadbalancer_naming.go:101-124 | A load balancer's check and firewalls never share a name with each other or with the shared ones |
| `Names.NotACheckFirewall` | providers/gce/gce_loadbalancer_naming.go:111-124 | A service's firewall is never the firewall of a check |
| `Names.CheckFirewallsDiffer` | providers/gce/gce_loadbalancer_naming.go:111-119 | Different checks have different firewalls |
| `LoadBalancerSpec.OpenWithoutCheckFirewall` | providers/gce/gce_loadbalancer_external.go:426-436 | A check that is gone is referred to by no pool, so deleting its firewall closes nobody's |
| `TargetPools.UpdateTargetPool` | providers/gce/gce_loadbalancer_external.go:597-661 | At every step the members lie between old ∩ hosts and old ∪ hosts; success means exactly the hosts; a pool that is right gets no request; from a pool without duplicates and with every request answered it succeeds if and only if the hosts are distinct |
| `TargetPools.Difference` | providers/gce/gce_loadbalancer_external.go:602-619 | For distinct hosts exactly the missing ones are added, and exactly those that are no hosts removed |
| `TargetPools.AddBatches` | providers/gce/gce_loadbalancer_external.go:621-634 | Requests of 1 to 1000 instances, ending with old ∪ hosts; the loop ends |
| `TargetPools.RemoveBatches` | providers/gce/gce_loadbalancer_external.go:636-648 | Requests of 1 to 1000 instances, ending with exactly the hosts; the loop ends |
| `CloudModel.AddAllPaths` | providers/gce/gce_loadbalancer_external.go:821-846 | Adding instances unites the path sets, and changes nothing if all are members |
| `CloudModel.RemoveAllPaths` | providers/gce/gce_loadbalancer_external.go:821-846 | Removing instances subtracts from the path set |
| `CloudModel.ComparablePathMeans` | providers/gce/gce_loadbalancer_external.go:840-846 | The comparable path starts at the first `/zones/`, and is empty without one |
| `PortRanges.GetPortRanges` | providers/gce/gce_loadbalancer_internal.go:913-953 | The loop with its three cases computes the printed ranges of the compressor, and its texts read back as exactly the input ports |
| `PortRanges.ReadFormat` | providers/gce/gce_loadbalancer_internal.go:925-945 | A printed range, cut at its dash and read as decimals, is the range |
| `PortRanges.ReadDashed` | providers/gce/gce_loadbalancer_external.go:868-869 | Two printed numbers with a dash between read as that range |
| `Text.ReadItoa` | providers/gce/gce_loadbalancer_internal.go:925-945 | A printed number reads as itself, without leading zeros |
| `Text.StringLeqMeans` | providers/gce/gce_loadbalancer_internal.go:571-572 | The order used for sorting: a prefix first, else the smaller byte at the first difference |
| `PortRanges.RangesMeaning` | providers/gce/gce_loadbalancer_internal.go:913-953 | The ranges hold exactly the input ports, ascending, disjoint and not adjacent |
| `PortRanges.SeparatedUnique` | providers/gce/gce_loadbalancer_internal.go:913-953 | Separated ranges are determined by their ports |
| `PortRanges.SamePrintedIffSamePorts` | providers/gce/gce_loadbalancer_internal.go:897-953 | Two port lists print alike if and only if they hold the same ports |
| `PortRanges.FewestRanges` | providers/gce/gce_loadbalancer_internal.go:913-953 | No list of ranges with the same ports is shorter |
| `PortRanges.BoundsExact` | providers/gce/gce_loadbalancer_external.go:848-869 | The forwarding rule's bounds enclose all ports and, sentinels aside, are ports |
| `PortRanges.PortBounds` | providers/gce/gce_loadbalancer_external.go:848-869 | The loop from the sentinels 65536 and 0 computes those bounds |
| `PortRanges.BoundsAgree` | providers/gce/gce_loadbalancer_external.go:848-869 | For valid ports the first start and last end of the ranges are the rule's bounds |
| `Firewalls.BuiltIsUpToDate` | providers/gce/gce_loadbalancer_external.go:1031-1070 | The built rule is judged up to date if and only if the IP is known and the protocol is TCP or UDP |
| `Firewalls.UpToDateOpensExactly` | providers/gce/gce_loadbalancer_external.go:884-927 | A rule judged up to date, enumerated or ranged, opens exactly the service's ports |
| `Firewalls.UpToDateMeans` | providers/gce/gce_loadbalancer_external.go:884-927 | A rule judged up to date admits exactly the service's networks, has no range that does not parse, is bound to exactly the IP and opens exactly the service's ports |
| `Firewalls.BuiltMeans` | providers/gce/gce_loadbalancer_external.go:1031-1070 | The built rule, field by field: networks, ports by reading its texts, IP, protocol, tags and description |
| `AddressManagers.AddressManager.HoldAddress` | providers/gce/gce_address_manager.go:61-97 | An own address that fits is kept: no request, and its IP is the answer; otherwise at every step only the own-named address changes; success means the IP is reserved with the right type, is the target if there is one, and `tryRelease` tells whose it is; with every request answered and no IP reserved twice it succeeds if and only if nobody else reserves the target for another type |
| `AddressManagers.AddressManager.EnsureAddressReservation` | providers/gce/gce_address_manager.go:122-183 | The same once the own name is free |
| `AddressManagers.AddressManager.Adopt` | providers/gce/gce_address_manager.go:158-183 | A taken IP is used only if the address fits, and is then not ours to release |
| `AddressManagers.AddressManager.ReleaseAddress` | providers/gce/gce_address_manager.go:100-120 | Removes exactly the own name, or nothing when the address is the user's |
| `AddressManagers.HoldThenRelease` | providers/gce/gce_address_manager.go:61-198 | Hold then release leaves the original addresses without the own name, whichever path was taken |
| `InstanceGroups.EnsureInstanceGroup` | providers/gce/gce_loadbalancer_internal.go:556-620 | Success means the first 1000 sorted nodes, or what an ignored "not found" can leave; no other group changes; within the limit at every step if it was at the start; with every request answered it succeeds and is exact, and if only a removal may find an instance gone it succeeds unless an addition can be refused |
| `InstanceGroups.ReplaceMembers` | providers/gce/gce_loadbalancer_internal.go:599-617 | Removing before adding never asks for too many while removals are done in full |
| `InstanceGroups.EndsExactly` | providers/gce/gce_loadbalancer_internal.go:605-610 | A successful run is sure to end with the wanted nodes if and only if nothing has to be removed, or something has to be added and the wanted nodes fill the group |
| `InstanceGroups.RefusedIff` | providers/gce/gce_loadbalancer_internal.go:563-617 | The addition can be refused if and only if nodes have to go and to come and are too many together with the old ones |
| `InstanceGroups.OneTooMany` | providers/gce/gce_loadbalancer_internal.go:605-617 | Exchanging one node of a full group can ask for 1001 |
| `InstanceGroups.Limited` | providers/gce/gce_loadbalancer_internal.go:563-573 | The cut keeps the 1000 least names |
| `InstanceGroups.FirstUnique` | providers/gce/gce_loadbalancer_internal.go:563-573 | There is only one such set |
| `InstanceGroups.AdoptGroups` | providers/gce/gce_loadbalancer_internal.go:655-676 | Adopts exactly the candidate groups that hold found nodes only |
| `InstanceGroups.EqualFoldMeans` | providers/gce/gce_loadbalancer_internal.go:660-662 | Names are alike exactly if they differ in the case of letters only |
| `InstanceGroups.AdoptableIff` | providers/gce/gce_loadbalancer_internal.go:655-676 | A group is adopted exactly if it is of the zone, has the prefix, is not named like the managed ones and holds found nodes only |
| `InstanceGroups.EnsureInstanceGroups` | providers/gce/gce_loadbalancer_internal.go:624-689 | The returned groups are exactly the adopted ones, untouched, and a managed one in each zone with nodes left over, brought to the first 1000 of those; in a zone of at most 1000 found nodes each is in a returned group; limits hold at every step; with every request answered it succeeds and the managed groups are exact |
| `InstanceGroups.EveryNodeServed` | providers/gce/gce_loadbalancer_internal.go:622-689 | Each found node of such a zone is in an adopted or managed group |
| `Instances.FindAll` | providers/gce/gce_instances.go:677-722 | Despite prefix filter, raw-count counter and early exits, every wanted name has the instance of the first zone that has one |
| `Instances.ScanZone` | providers/gce/gce_instances.go:700-721 | One zone's listing, left early once the counter is used up, loses no instance |
| `Instances.FilterKeeps` | providers/gce/gce_instances.go:684-696 | The prefix filter loses no wanted instance |
| `Instances.GetFoundInstanceByNames` | providers/gce/gce_instances.go:677-738 | Returns exactly the instances found, each once |
| `Instances.GetInstanceByName` | providers/gce/gce_instances.go:741-756 | The zone-by-zone lookup gives the same instance |
| `Instances.CanonicalMeans` | providers/gce/gce_util.go:200-207 | The canonical name is the host name before its first dot |
| `Disks.DisksAreAttached` | providers/gce/gce_disks.go:637-667 | For one node: each disk asked about, and whether its instance has it |
| `Disks.VerifyDisksAttachedToNode` | providers/gce/gce_disks.go:1041-1054 | Each disk asked about, and whether it is among the devices |
| `Disks.BulkDisksAreAttached` | providers/gce/gce_disks.go:671-698 | For every node the same map as the one-node lookup on the same snapshot |
| `NodeZones.ZoneIndex.HandleAll` | providers/gce/gce.go:787-846 | After any truthful sequence of events the index is exact, and the current zones are exactly those with a live node |
| `NodeZones.StaysExact` | providers/gce/gce.go:787-846 | The index follows the live nodes through every such sequence |
| `NodeZones.ZoneIndex.UpdateNodeZones` | providers/gce/gce.go:825-846 | The two set updates, with emptied zones kept as nil |
| `NodeZones.ZoneIndex.Handle` | providers/gce/gce.go:790-822 | One event; same-zone updates are skipped |
| `NodeZones.ZoneIndex.GetAllCurrentZones` | providers/gce/gce_instances.go:490-507 | Exactly the zones with a non-empty entry |
| `NodeZones.StaleDelete` | providers/gce/gce.go:804-821 | A stale delete keeps the index exact if and only if it names the live node's zone, or that node had none |
| `Cidr.EndsDecide` | providers/gce/gce_util.go:292-310 | Checking the two end addresses decides containment of every address, for every mask and with host bits set or not |
| `Cidr.MatchesBits` | providers/gce/gce_util.go:292-300 | A byte matches exactly if no bit under the mask differs |
| `Cidr.EndsAreExtreme` | providers/gce/gce_util.go:297-310 | The two end addresses are the least and the greatest of the range |
| `Cidr.LastIPInRange` | providers/gce/gce_util.go:303-310 | In place, every host bit of a copy is set |
| `Cidr.SubnetsInCIDR` | providers/gce/gce_util.go:313-325 | Exactly the subnets inside the range, or an error if one does not parse |
| `NodeLabels.Node.Run` | cmd/gcp-controller-manager/node_annotator.go:119-146 | Over any sequence of user edits and reconciles, the node's labels are those of a reference that keeps the last desired map itself |
| `NodeLabels.Node.ReconcileLabels` | cmd/gcp-controller-manager/node_annotator.go:119-146 | Labels without owned keys and keys applied last, overlaid with the desired map; no change exactly if the metadata is missing or malformed; empty metadata takes labels away, and a malformed annotation takes none |
| `NodeLabels.Node.MergeManagedLabels` | cmd/gcp-controller-manager/node_annotator.go:425-442 | The three-way merge, and the annotation now records the desired map |
| `NodeLabels.MemoryIsFaithful` | cmd/gcp-controller-manager/node_annotator.go:411-423 | Reading the annotation back gives the map it was written from, the empty one included |
| `NodeLabels.RoundTrip` | cmd/gcp-controller-manager/node_annotator.go:444-477 | Parsing the printed form of a non-empty valid map gives the map back |
| `NodeLabels.SerializedUnique` | cmd/gcp-controller-manager/node_annotator.go:469-477 | The printed form does not depend on the order the map is walked in |
| `NodeLabels.SerializeLabels` | cmd/gcp-controller-manager/node_annotator.go:469-477 | The pairs, each once, sorted and joined |
| `NodeLabels.ParseLabels` | cmd/gcp-controller-manager/node_annotator.go:444-457 | The loop agrees with the fold over pairs, errors included |
| `NodeLabels.ValidHasNoSeparator` | cmd/gcp-controller-manager/node_annotator.go:453-455 | Valid keys and values hold no separator |
| `NodeLabels.ValidKeyIff` | cmd/gcp-controller-manager/node_annotator.go:453-455 | A key is a name, or a domain, a slash and a name |
| `NodeLabels.DomainIff` | cmd/gcp-controller-manager/node_annotator.go:453-455 | A domain is labels with dots between, at most 253 long |
| `NodeLabels.WordShapes` | cmd/gcp-controller-manager/node_annotator.go:453-455 | Names, labels and values by their ends, what is between and their length |
| `DockerAuth.AuthRoundTrip` | pkg/credentialconfig/config.go:296-330 | Decoding an encoded pair gives a pair, and the same one if and only if the user name has no colon; padded or not |
| `DockerAuth.PairIffColon` | pkg/credentialconfig/config.go:315-319 | A field decodes to a pair if and only if what it encodes has a colon |
| `DockerAuth.DispatchRoundTrip` | pkg/credentialconfig/config.go:296-314 | The dispatch on a trailing `=` picks the right decoder for all lengths, padded or not |
| `DockerAuth.PaddedRoundTrip` | pkg/credentialconfig/config.go:302-309 | The padded decoder inverts the encoder |
| `DockerAuth.RawRoundTrip` | pkg/credentialconfig/config.go:302-309 | The unpadded decoder inverts the encoder without its padding |
| `DockerAuth.TrailingBreak` | pkg/credentialconfig/config.go:300-309 | A line break after the field changes nothing, padded or not |
| `DockerAuth.DecodedIsEncoded` | pkg/credentialconfig/config.go:302-309 | Whatever the padded decoder accepts is the encoding of what it gives, but for unused bits of the last group |
| `DockerAuth.RawDecodedIsEncoded` | pkg/credentialconfig/config.go:302-309 | The same for the unpadded decoder |
| `NodeSyncer.NodeGSAs.Sync` | cmd/gcp-controller-manager/dpwi/nodesyncer/nodesyncer.go:194-216 | Success means the receiver's last accepted list is the sorted current one, sent in this call exactly if it was another one or older than the resync period; accepted sends are 10 s apart; it fails only if rate-limited or the send fails |
| `NodeSyncer.NodeGSAs.SyncAll` | cmd/gcp-controller-manager/dpwi/nodesyncer/nodesyncer.go:163-216 | The same over any run of calls with a non-decreasing clock; after every successful call the last accepted send is less than the resync period old |
| `NodeSyncer.CurrentGSAs` | cmd/gcp-controller-manager/dpwi/nodesyncer/nodesyncer.go:113-138 | The accounts of the verifiable pods, each once |
| `NodeSyncer.Process` | cmd/gcp-controller-manager/dpwi/nodesyncer/nodesyncer.go:90-144 | Success leaves the receiver with the node's accounts if and only if the node has one or the receiver had the empty list; it fails only if rate-limited or the send fails |
| `NodeSyncer.EmptiedNode` | cmd/gcp-controller-manager/dpwi/nodesyncer/nodesyncer.go:131-133 | A node that loses its last account is processed with success and the receiver keeps the account |
| `NodeSyncer.SameListSent` | cmd/gcp-controller-manager/dpwi/nodesyncer/nodesyncer.go:113-138 | The order of collection does not change the list sent |

## Left out

- Internal load balancers as a whole (`ensureInternalLoadBalancer` and its deletion): the model has their port ranges, instance groups and address manager.
- The branch of `ensureInternalInstanceGroups` under the feature gate that skips managing groups, and `ensureInternalInstanceGroupsDeleted`.
- Firewall writes refused on shared VPC networks, which only raise an event: firewall writes are permitted here, or fail as an error.
- ExternalLoadBalancer.EnsureExternalLoadBalancer: runs of different services are sequential here and the lock around the shared check is not part of it; concurrent services and the lock are the subject of `SharedHealthCheck`.
- ExternalLoadBalancer.EnsureExternalLoadBalancer: a service has at least one port and its load-balancer name has no dash, as service validation and the naming function give it; the initial world is one in which rules have pools and pools have checks.
- HealthChecks.WriteFirewall: a conflict on a patch is accepted as success by the code; the modelled cloud has no other writer of that firewall and never answers so.
- Firewalls.UpToDateOpensExactly: speaks of ports only, since the drift test compares neither the protocol with the service's nor the target tags.
- Text of source ranges: parsed networks are compared as canonical text, and malformed text is a case of its own; network and address parsing is not part of this model.
- SharedHealthCheck.AlwaysSafe: steps on a service's own resources are any that leave the shared check, its firewall and other services' pools alone.
- LoadBalancerRecovery.Recover: services that ask for an IP are excluded, since for them the world can become one in which no run succeeds (`LoadBalancerSurprises.StuckOnOtherIP`).
- Instances.FindAll: the prefix filter is a literal prefix; a configured prefix with regular-expression characters is not modelled.
- Instances.GetInstanceByName: an instance is a name, an identity and its device names; machine types are dropped.
- Cidr.EndsDecide: addresses of one length only; the folding of IPv4 addresses written as IPv6 is not modelled.
- NodeLabels.SerializeLabels: stated for valid label maps, which is all its callers pass since parsing validates.
- NodeLabels.Node.Run: the user edits labels between reconciles, not the annotation.
- DockerAuth.AuthRoundTrip: strings are bytes; trimming trailing space handles the ASCII space characters.
- NodeSyncer.Process: looking up the node and its zone, and dropping the entry of a deleted node.
- NodeZones.ZoneIndex.GetAllCurrentZones: the answers before the informer has synced and without informers.
- Node taints, resize-request labels, machine-termination annotations, metrics, logging, events, contexts and the API client itself.
- Certificate approvers, attestation, caches and token providers, and the node IPAM controller.
