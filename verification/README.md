# RKE reconcile and deployment, modelled in Dafny

RKE compares a saved cluster with a wanted one and drives etcd membership, Docker containers on many
hosts and Kubernetes node objects from one to the other.  This project models that core and proves
what it keeps at every step, over every run and under every pattern of failing remote calls.

Verify everything with `dafny verify dfyconfig.toml`.

## How the system is modelled

Remote calls (Docker, etcd, Kubernetes) are made against a state that carries its own answers: a
`Daemon`, an `Etcd` and an `Api` each hold a call counter and a function that says which call fails.
A failed call has no effect.  A lemma for all such states is therefore a lemma for all patterns of
failures.  A claim "at every call" is about the machine's steps or about the log of calls.

Every operation that changes state is a method on an object with the source's fields (`Docker.Client`,
`Hosts.Host`, `EtcdPlane.MembersApi`, `Kube.Client`, `Cluster.ClusterHosts`, `Pki.CertStore`), and its
`ensures` equates the new state with a function of the old one; the properties are lemmas about that
function.

| file | part of the system |
|---|---|
| `Docker.dfy`, `Quiet.dfy` | one host's daemon and the container operations, call by call; their exact effect when nothing fails |
| `Planes.dfy`, `Progress.dfy` | goroutines per host with barriers between phases; no run blocks or goes on for ever |
| `Services.dfy`, `Proxy.dfy` | what each plane runs and removes on a host; the proxy's configuration |
| `Deploy.dfy`, `Lifecycle.dfy`, `Order.dfy`, `Sidekick.dfy` | a whole deployment, what exists at every step and in which order it comes |
| `Redeploy.dfy`, `DeploySuccess.dfy` | hosts that hold something already, deploying again, and when a deployment succeeds |
| `Teardown.dfy`, `Removal.dfy` | the removal of a cluster |
| `Membership.dfy`, `EtcdReconcile.dfy`, `EtcdReload.dfy`, `EtcdPlane.dfy`, `EtcdLive.dfy`, `EtcdSuccess.dfy`, `EtcdConfig.dfy` | the etcd membership protocol |
| `Hosts.dfy`, `Cluster.dfy`, `RoleReconcile.dfy`, `MoveToEnd.dfy` | host objects shared between role lists, and the worker and control phases |
| `Kube.dfy`, `KubeSuccess.dfy` | cordon, delete and label synchronisation of node objects; exactly when they succeed |
| `Text.dfy`, `Pki.dfy`, `ServiceIP.dfy` | joined strings, certificate names and the shared map, the service address |

## Main results

- Membership: at every call of every etcd reconcile, majorities before and after it meet
  (`EtcdReconcile.ReconcileKeepsQuorums`); an add waits for a health check after the previous one
  (`AddsWaitForHealth`), and what the log says of a check is what was answered (`LogTellsAnswers`); an add, a
  removal, a health check and a reload succeed exactly when the answers allow it (`EtcdSuccess`); a host in both lists is never removed (`EtcdPlane.KeptHostStays`); the k-th
  reload announces the surviving hosts plus the first k new ones, and these are the live members
  (`EtcdLive.ReloadsAnnounceLiveMembers`); the etcd plane that follows replaces no container
  (`EtcdReload.PlaneAfterReconcileReplacesNothing`, `EtcdConfig.EtcdPlaneReplacesNothing`).
- Planes: every interleaving of every deployment, failing hosts included, ends as the sequential
  deployment does (`Planes.InterleavingIsSequential`), and every run does end (`Progress`).
- Order: at every call of every run, whatever fails, etcd runs on every etcd host before any other service
  comes to any host, the masters on every control host before any `kubelet`, and nothing that mounts from the
  sidekick is without it (`Order.EtcdFirst`, `Order.MastersFirst`, `Sidekick.SidekickBeforeServices`).
- Containers: an update never loses the container it started from, wherever it is cut off
  (`Docker.UpdateNeverLosesContainer`); two runs suffice, one suffices exactly when the container was not
  stopped with another configuration; without failures the effect of a run or an update, its verdict and its
  number of calls have a closed form (`Quiet.QuietRun`, `Quiet.QuietRoll`).
- Lifecycle: on fresh hosts `kube-api` and `nginx-proxy` never coexist at any step; success leaves exactly
  what the roles call for, and without failures a deployment succeeds; deploying again changes no container
  (`DeploySuccess.DeployingAgainChangesNothing`); `ClusterRemove` on such hosts leaves them bare when nothing fails, and whenever it
  returns nil exactly under a condition on the control hosts' daemons at the call (`Removal.RemoveDeployed`).
- Roles: when the worker and control phases succeed, exactly the current hosts that lost every worker and
  control role were deleted, each once as the log of requests shows, and the node objects are the former ones without theirs
  (`RoleReconcile.ReconcileRoles`).

Well-formedness is stated as preconditions where a result needs it: distinct addresses and host objects,
no role repeated within a node, comma-free and non-empty addresses, names without `=`.

## Where the code differs from what one would expect

- `StopRenameContainer` turns a failed wait into success without renaming (docker/docker.go:269-271); the
  creation that follows then fails because the name is taken (`Docker.SwallowedWaitFailsLater`; `Docker.NilMeansRenamed` is the exact condition).
- `RemoveControlPlane` returns nil when one of two of its removals fails (services/controlplane.go:37-39,
  services/controlplane.go:56-58), so nil does not mean removed (`Services.NilYetKubeControllerStays`);
  `Services.ControlPlaneQuits` and `Removal.AllBareExactly` say exactly when it does.  The worker and etcd
  removals report every error, so there nil does mean removed.
- `CordonUncordon` goes on reading after a successful update (k8s/node.go:30-49); it is still at most one
  update.
- One `DoRunContainer` is not enough for a container that is stopped with another configuration: it is
  started as it is (`Docker.StoppedIsStartedAsItIs`; `Docker.OneRunSuffices` gives the exact condition).
- Certificate names replace dots by hyphens, so two addresses can share an entry
  (`Pki.EtcdCrtNameCollides` says exactly which).
- `getLocalConfigAddress` returns the address the kubeconfig was written with exactly when that address
  has no colon (`MoveToEnd.LocalConfigAddressRoundTrip`).
- With a prefix as long as the address, the service address leaves the network
  (`ServiceIP.NextAddressInNetwork`).
- A comma-joined list cannot tell no address from one empty address (`Text.JoinInjective`).

## Model

| member | source | states |
|---|---|---|
| `Docker.UpdateNeverLosesContainer` | docker/docker.go:73-104 | wherever a run or a rolling update is cut off and whatever failed, the container it started from exists under its own or its `old-` name or a created and started replacement has its name, and no container of any other name changed |
| `Docker.StateAfterResumes` | docker/docker.go:32-104 | cutting an operation after any number of calls and going on gives the uninterrupted result |
| `Docker.RunOutcome` | docker/docker.go:32-71 | what a successful run did, case by case: created and started, left alone, replaced under a new identity, or merely started |
| `Docker.OneRunSuffices` | docker/docker.go:51-70 | a successful run leaves the container up as requested exactly when it was not stopped with another image or command |
| `Docker.StoppedIsStartedAsItIs` | docker/docker.go:64-70 | without failures a run of a container stopped with another configuration succeeds and leaves it not as requested |
| `Docker.TwoRunsSuffice` | docker/docker.go:32-71 | from any state two successful runs leave the container running with the requested image and command |
| `Docker.RunWhenUpChangesNothing` | docker/docker.go:52-62 | once up, a further run changes no container, whatever fails; it succeeds exactly when none of its two calls, or three with a health check, fails |
| `Docker.ReplacedExactlyWhenDifferent` | docker/docker.go:288-303 | a successful run gives a running container a new identity exactly when its image or command differs |
| `Docker.RemoveOutcome` | docker/docker.go:106-130 | a successful removal leaves exactly the other containers, a failed one takes no container away, and without failures removal succeeds |
| `Docker.SidekickOutcome` | services/services.go:64-81 | the sidekick is created at most once, never started, and nothing else changes |
| `Docker.StopRenameIsSteps` | docker/docker.go:265-274 | stop, wait and rename as one unit agree with the calls taken one by one, the swallowed wait error included |
| `Docker.NilMeansRenamed` | docker/docker.go:265-274 | a stop-and-rename that reports success has renamed the container exactly when the wait did not fail |
| `Docker.SwallowedWaitFailsLater` | docker/docker.go:269-271 | when the stop succeeds and the wait fails, success is reported without a rename, the creation that follows fails and the original stays stopped under its own name |
| `Docker.Client.DoRunContainer` | docker/docker.go:32-71 | the daemon and the result are those of the call-by-call machine |
| `Docker.Client.DoRollingUpdateContainer` | docker/docker.go:73-104 | the same for a rolling update; `Quiet.QuietRoll` gives its exact effect |
| `Docker.Client.StopRenameContainer` | docker/docker.go:265-274 | the same for stop, wait, rename |
| `Docker.Client.DoRemoveContainer` | docker/docker.go:106-130 | the same for a removal |
| `Docker.Client.IsContainerUpgradable` | docker/docker.go:288-303 | succeeds iff the call does and the container exists; upgradable iff image or command differs; changes no container |
| `Docker.Client.RunSidekick` | services/services.go:64-81 | the daemon and the result are those of the call-by-call machine |
| `Quiet.QuietRun` | docker/docker.go:32-71 | without failures: exactly the containers left and the calls made, and success exactly unless a running container with another image or command is to be replaced while its `old-` name is taken |
| `Quiet.QuietRoll` | docker/docker.go:73-104 | without failures, called directly or as part of a run: a container that does not run is left alone, any other is replaced by a started one and its `old-` container removed, unless that name was taken, and then the update fails with the original stopped |
| `Quiet.QuietSidekick` | services/services.go:64-81 | without failures the sidekick is created and not started, in three calls, or found in one |
| `Planes.StepKeepsRemaining` | services/controlplane.go:15-23 | one remote call of a goroutine does not change where its host is heading |
| `Planes.EveryRunStaysOnCourse` | services/workerplane.go:21-54 | at every point of every run all earlier phases have finished without error on every host, idle hosts are as they left them, and busy hosts will end as if deployed alone |
| `Planes.InterleavingIsSequential` | services/workerplane.go:16-57 | every complete interleaving, with or without failing hosts, gives every host the state, and the caller the verdict, of deploying one host after another |
| `Planes.CompletedRemovals` | services/workerplane.go:68-79 | removals that completed took away exactly their names, whatever else failed |
| `Planes.SweepClears` | services/workerplane.go:61-83 | whatever fails, a teardown loop clears every host before the first unfinished one of exactly the named containers and leaves the hosts behind it alone |
| `Planes.SweepOutcome` | services/controlplane.go:30-64 | the loop completes exactly when no host is unfinished, and ends early with nil exactly when the first unfinished host stops it or the first removal failing there is a swallowed one |
| `Planes.SweepUnfinished` | services/controlplane.go:30-64 | on the unfinished host exactly the containers named before the failing removal are gone |
| `Planes.SweepDone` | services/controlplane.go:30-64 | a loop that completed ran each host's own removals to their end, call for call |
| `Planes.QuietSweep` | cluster/remove.go:12-26 | without failures a loop that no host stops completes |
| `Progress.NextLeavesLess` | services/workerplane.go:21-54 | every step of every run brings the end nearer |
| `Progress.RunsAreBounded` | services/workerplane.go:16-57 | no run is longer than a bound computed from the plan alone |
| `Progress.RunsNeverBlock` | services/workerplane.go:21-54 | a run that has not ended can go on |
| `Services.DoDeployControlHost` | services/controlplane.go:69-89 | the host's daemon ends as the list of control operations for its roles says; `Redeploy.ControlDeployed` says what that leaves on any host |
| `Services.DoDeployWorkerPlane` | services/workerplane.go:86-108 | the host's daemon ends as the list of worker operations for its roles says; `Redeploy.WorkerDeployed` says what that leaves on any host |
| `Services.NilMeansCleared` | services/workerplane.go:59-84 | where no error is swallowed nil means that every host before the one that ends the loop lost exactly the named containers |
| `Services.RemoveWorkerPlane` | services/workerplane.go:59-84 | the hosts end as the sweep says; without force every host from the first control host on is unchanged; nil means, under every pattern of failures, that each host before it, and with force every host, lost exactly `kubelet`, `kube-proxy`, `nginx-proxy` and `service-sidekick`; without failures nil is returned |
| `Services.RemoveControlPlane` | services/controlplane.go:28-67 | the hosts end as the sweep says; when it completed, whatever failed, each host lost exactly the three masters and, unless it is a worker, `kubelet`, `kube-proxy` and `service-sidekick`; without failures it completes |
| `Services.ControlSwallows` | services/controlplane.go:37-58 | on a control host an error is swallowed exactly when the first removal to fail is that of `kube-controller`, or of `kube-proxy` on a host that is not a worker |
| `Services.ControlPlaneQuits` | services/controlplane.go:28-67 | nil without completion is returned exactly when that is the case on the first host where a removal fails |
| `Services.NilYetKubeControllerStays` | services/controlplane.go:37-39 | a daemon on which nil is returned and `kube-controller` stays |
| `Services.RemoveEtcdPlane` | services/etcd.go:35-61 | the hosts end as the sweep says; nil means, under every pattern of failures, that each host lost exactly `etcd` and, unless it is worker and control host and force is off, the four worker containers; without failures it completes |
| `Services.ControlRemoved` | services/controlplane.go:28-67 | the names the control removal takes from a host, by its worker role |
| `Services.EtcdRemoved` | services/etcd.go:35-61 | the names the etcd removal takes from a host, by its roles and force |
| `Services.SweepStopsThere` | services/workerplane.go:62-65 | hosts from one that ends the loop on are left alone |
| `Deploy.SequentialHost` | services/workerplane.go:16-57 | what a plan does to one host is that host's own operations in order |
| `Deploy.DeployFlat` | cluster/cluster.go:56-91 | the operations a deployment has for a node are a function of its roles |
| `Deploy.DeployWellFormed` | cluster/cluster.go:56-91 | with distinct addresses every phase has at most one goroutine per host |
| `Lifecycle.HostEffect` | services/controlplane.go:69-89 | the services those operations leave on a host with a role are exactly the expected ones |
| `Lifecycle.DeploymentOutcome` | cluster/cluster.go:56-91 | from bare hosts, whatever the interleaving, success leaves on each host exactly the services of its roles, each as wanted and running, with no leftover |
| `Lifecycle.ApiAndProxyNeverTogether` | services/controlplane.go:69-89 | at no step of any deployment of bare hosts do `kube-api` and `nginx-proxy` exist on one host |
| `Order.EtcdFirst` | cluster/cluster.go:56-61 | at every call of every run from any state: once any other service has come to any node, `etcd` runs on every etcd node |
| `Order.EtcdInOrder` | services/etcd.go:21-31 | once `etcd` has come to a node it runs on every etcd node before it in the list |
| `Order.MastersFirst` | cluster/cluster.go:62-91 | once `kubelet` or `kube-proxy` has come to any node, `kube-api`, `kube-controller` and `scheduler` run on every control node |
| `Order.WorkersInOrder` | services/workerplane.go:21-54 | before `kubelet` or `kube-proxy` comes to a node, both have run on every etcd node if it is none, and on every control node if it is neither |
| `Order.NotBefore` | services/workerplane.go:16-57 | a service a host did not have is there only if a phase that has begun names it there |
| `Sidekick.SidekickBeforeServices` | services/controlplane.go:75-89 | at every call of every deployment a host with a service that takes its volumes from the sidekick has the sidekick, if that was so at the start |
| `Redeploy.ControlDeployed` | services/controlplane.go:69-89 | on a host in any state success leaves the sidekick and the running masters, no `nginx-proxy` on a worker, and no other name comes or goes |
| `Redeploy.ControlKeepsApart` | services/controlplane.go:70-74 | on a worker host without `kube-api`, whatever else it holds, no call of the control deployment finds `kube-api` and `nginx-proxy` together |
| `Redeploy.WorkerDeployed` | services/workerplane.go:86-108 | on a host in any state success leaves the sidekick, running `kubelet` and `kube-proxy`, a running `nginx-proxy` unless it is a control host, and no other name comes or goes |
| `DeploySuccess.QuietDeploymentSucceeds` | cluster/cluster.go:56-91 | without failures every complete run of a deployment of bare hosts succeeds |
| `DeploySuccess.DeployingAgainChangesNothing` | cluster/cluster.go:56-91 | deploying to a node that holds what a deployment leaves there changes none of its containers, whatever fails, however the goroutines interleave and whatever the other nodes hold |
| `DeploySuccess.PlaneCalls` | services/controlplane.go:69-89 | the calls of each plane on a host where everything is up, the health check of each of the five services among them |
| `Teardown.CleanUpOutcome` | hosts/hosts.go:99-117 | however the calls went, a cleaner that was run, awaited and removed leaves every other container as it was and no cleaner, not even an earlier one; without failures it succeeds |
| `Teardown.CleanUpAll` | hosts/hosts.go:44-55 | the same of the method |
| `Teardown.CleanUpHosts` | cluster/remove.go:37-49 | hosts in several lists are cleaned several times; success leaves each with what it held but the cleaner |
| `Teardown.TornDownNames` | cluster/remove.go:12-26 | the three removals together cover everything a deployment leaves for the same roles |
| `Removal.AllBareExactly` | cluster/remove.go:12-35 | after a removal that returned nil all hosts are bare exactly when the control removal completed, or ended early on the last control host over `kube-proxy` and that host is also an etcd host |
| `Removal.RemoveStanding` | cluster/remove.go:12-35 | `ClusterRemove` on hosts holding what their roles call for: nil means bare hosts exactly under that condition on the daemons as they are at the call, and without failures nil is returned and they are bare |
| `Removal.RemoveDeployed` | cluster/remove.go:12-35 | the same on the hosts of any successful deployment of bare hosts, however it interleaved: removal undoes deployment |
| `Teardown.ClusterRemove` | cluster/remove.go:12-35 | nil tells, from the daemons at the call, what is left on every host under every pattern of failures; where the control removal completed each host lost exactly the containers of its roles; without failures the whole removal completes |
| `Hosts.GetToDeleteHosts` | hosts/hosts.go:153-167 | the order-preserving list of current hosts whose address the configuration lacks |
| `Hosts.GetToAddHosts` | hosts/hosts.go:169-184 | the same function with its arguments exchanged |
| `Hosts.IsHostListChanged` | hosts/hosts.go:186-213 | true exactly when one of the two differences is non-empty |
| `Hosts.MissingMembers` | hosts/hosts.go:153-184 | membership in the difference, both ways |
| `Hosts.DiffsReconcile` | hosts/hosts.go:153-184 | current addresses without the hosts to delete plus the hosts to add are exactly the wanted addresses |
| `Hosts.ChangedMeansDifferentAddresses` | hosts/hosts.go:186-213 | a changed list is a changed set of addresses |
| `Membership.QuorumsMeet` | cluster/reconcile.go:155-203 | majorities before and after a change by at most one member share a member (section 4.1 of Ongaro's dissertation) |
| `Membership.AddEffect` | services/etcd.go:106-129 | success appends exactly one member with a new id and that peer URL, failure changes nothing |
| `Membership.RemoveEffect` | services/etcd.go:131-165 | success removes exactly the first member of that name, failure, an unknown name included, changes nothing |
| `Membership.RemoveKeeps` | services/etcd.go:131-165 | a member of another name is in the list after every call of a removal |
| `Membership.ProbeExactly` | services/etcd_util.go:42-74 | a health check with so many tries is good exactly when a good answer comes among as many, with only bad ones before it |
| `EtcdSuccess.AddSucceeds` | services/etcd.go:106-129 | an add succeeds exactly when some endpoint answers both its calls, whatever earlier ones did |
| `EtcdSuccess.RemoveSucceeds` | services/etcd.go:131-165 | a removal succeeds exactly when a member has the name and some endpoint answers all three calls |
| `EtcdSuccess.AnyHealthyExactly` | services/etcd.go:183-191 | the loop over the ready hosts ends at the first good answer; it fails only after each was asked and no answer was good |
| `EtcdSuccess.ReloadExactly` | services/etcd.go:167-193 | a reload asks for health exactly when every ready host's container was run, and then succeeds exactly with a good answer |
| `EtcdSuccess.GoodReconcileSucceeds` | cluster/reconcile.go:149-205 | a reconcile whose calls all go well succeeds |
| `EtcdSuccess.AddsAppend` | cluster/reconcile.go:189-202 | a successful run of adds appends exactly the new hosts' peers, in order |
| `EtcdReconcile.ReconcileKeepsQuorums` | cluster/reconcile.go:149-205 | at every call of every reconcile any majority before it and any majority after it meet |
| `EtcdReconcile.AddsWaitForHealth` | cluster/reconcile.go:189-202 | between an add and any later attempt to add there is a successful health check |
| `EtcdReconcile.LogTellsAnswers` | services/etcd_util.go:42-74 | over a whole reconcile a health check counts as successful exactly when the answer to its call is good, and members change only on a good answer |
| `EtcdReconcile.KeptMembersStay` | cluster/reconcile.go:155-160 | a member whose host is not being removed is in the list after every call |
| `EtcdReload.ReadyExactly` | services/etcd.go:168-174 | the ready hosts are exactly the unflagged ones, in configuration order |
| `EtcdReload.RunEtcdsSucceeds` | services/etcd.go:21-31 | the loop over the hosts succeeds exactly when every listed host's own run does |
| `EtcdReload.RunEtcdsExactly` | services/etcd.go:21-31 | a host is run exactly when all before it in the list could be; the others are left as they are |
| `EtcdReload.ReloadsAnnounce` | services/etcd.go:167-181 | the k-th reload of a run names the hosts that were ready at the start plus the first k added ones, in configuration order; if membership matched at the start, these are the live members then, in number too |
| `EtcdReload.KthReloadGives` | services/etcd.go:175-181 | whatever fails, the k-th add leaves each container alone or runs it with exactly that list as a member of an existing cluster, and after a success every ready container was run so |
| `EtcdLive.RemovalsLeaveTheRest` | cluster/reconcile.go:155-160 | when every removal succeeds the members left have exactly the URLs of the remaining hosts, and are as many |
| `EtcdLive.MatchedBeforeAdds` | cluster/reconcile.go:154-171 | from the two host lists: if the members were the current hosts and every removal succeeded, they are exactly the ready wanted hosts when the adds begin |
| `EtcdLive.ReloadsAnnounceLiveMembers` | cluster/reconcile.go:149-205 | in that case each reload of the reconcile announces exactly the live members of that moment, the hosts that stay plus the first k new ones |
| `EtcdLive.OneMemberPerPeer` | services/etcd.go:167-181 | announced peers with distinct addresses have exactly one live member each |
| `EtcdReload.UpAfterLastReload` | services/etcd.go:167-181 | after the last reload a container is up as the etcd plane wants it exactly when that reload did not find it stopped with another configuration |
| `EtcdReload.PlaneAfterReconcileReplacesNothing` | services/etcd.go:19-33 | the etcd plane run after a reconcile that added a member changes no container, whatever fails, if each was absent or running when the last reload came and is still running |
| `EtcdPlane.MembersApi.AddEtcdMember` | services/etcd.go:106-129 | membership, log and result are those of the specified add over the endpoints |
| `EtcdPlane.MembersApi.RemoveEtcdMember` | services/etcd.go:131-165 | the same for a removal, the id remembered from an earlier endpoint included |
| `EtcdPlane.MembersApi.IsEtcdHealthy` | services/etcd_util.go:42-74 | true exactly when one of the next three answers is good with only bad ones before it; membership and log as specified |
| `EtcdPlane.FindMember` | services/etcd.go:147-152 | the id of the first member of that name, else what was known before |
| `EtcdPlane.GetEtcdInitialCluster` | services/etcd_util.go:93-102 | the loop builds the comma-joined list of entries |
| `EtcdPlane.RunEtcdPlane` | services/etcd.go:19-33 | the hosts end as running every host's container with the full member list, up to the first error |
| `EtcdPlane.CollectReady` | services/etcd.go:168-174 | returns the ready host objects and marks exactly those as part of an existing cluster |
| `EtcdPlane.ReloadEtcdCluster` | services/etcd.go:167-193 | hosts, membership and result are those of the specified reload |
| `EtcdPlane.FlagMissing` | cluster/reconcile.go:171-188 | new hosts are flagged and get certificates up to the first that cannot be made |
| `EtcdPlane.ReconcileEtcdPlane` | cluster/reconcile.go:149-205 | over the host objects of both clusters: removals of the missing hosts, flags and certificates for the new ones, then their adds, as the specified reconcile; a certificate that cannot be made ends it before any add |
| `EtcdPlane.KeptHostStays` | cluster/reconcile.go:155-160 | a host that both etcd lists have is never removed |
| `EtcdConfig.EtcdCmdInjective` | services/etcd.go:63-104 | the command line tells host name, address, cluster state and member list apart |
| `EtcdConfig.EntryNamesMember` | services/etcd_util.go:93-102 | the member list announces the member name and the peer URL that the membership API is given |
| `EtcdConfig.CmdNamesMember` | services/etcd.go:63-104 | the command line carries that name and URL, the member list, and the state `existing` for a host of an existing cluster and `new` otherwise |
| `EtcdConfig.EtcdReplacedExactlyOnChange` | services/etcd.go:63-104 | a successful run replaces a running etcd container exactly when image, name, address, cluster state or announced members changed |
| `EtcdConfig.ReloadedCommandLine` | services/etcd.go:63-104 | after a reconcile that added a member every host counts as existing and runs the etcd plane's own command line exactly when the last reload did not find it stopped with another |
| `EtcdConfig.EtcdPlaneReplacesNothing` | services/etcd.go:19-33 | the etcd plane after such a reconcile, with the real command line, changes no container |
| `Text.SplitJoin` | services/etcd_util.go:93-102 | splitting a comma-joined list of comma-free fields gives the list back |
| `Text.JoinInjective` | services/proxy.go:53-62 | the joined string determines a comma-free list, up to empty against one empty field |
| `Text.InitialClusterRoundTrip` | services/etcd_util.go:93-102 | the initial-cluster string parses back to its (name, address) list |
| `Proxy.BuildProxyEnv` | services/proxy.go:53-62 | the loop builds the comma-joined internal addresses |
| `Proxy.RunNginxProxy` | services/proxy.go:29-33 | runs the proxy container with that configuration |
| `Proxy.ProxyReplacedExactlyOnChange` | services/proxy.go:29-62 | a successful run replaces a running proxy exactly when the image or the sequence of control-plane addresses changed |
| `Pki.EtcdCrtNameCollides` | pki/util.go:144-147 | two addresses share a certificate name exactly when they differ only in dots against hyphens |
| `Pki.EtcdCrtNameInjective` | pki/util.go:144-147 | hyphen-free addresses have distinct names |
| `Pki.EtcdCrtNameCollisionExample` | pki/util.go:144-147 | two addresses that share one entry |
| `Pki.NamesSpelled` | pki/constants.go:11-22 | the seven fixed names, and an etcd host's name, as they are spelled |
| `Pki.BackupIsFetched` | pki/deploy.go:124-137 | the backup looks up exactly the names that are fetched |
| `Pki.GetClusterCerts` | cluster/certificates.go:69-106 | succeeds iff every fixed and etcd name has a secret, and then holds exactly those |
| `Pki.RegenerateEtcdCertificate` | pki/pki.go:122-143 | sets exactly the host's entry, or nothing when signing fails |
| `Pki.IssuedEntries` | pki/pki.go:122-143 | issuing adds exactly the new hosts' names and leaves every other entry as it was |
| `Pki.DistinctHostsDistinctEntries` | cluster/reconcile.go:174-187 | distinct hyphen-free internal addresses get distinct entries, and each entry is the certificate made for its host |
| `Pki.RegenerateNewMembers` | cluster/reconcile.go:174-187 | the shared map holds what was issued up to the first failure, and every host reached is flagged |
| `Pki.ReconcileCertificates` | cluster/reconcile.go:172-194 | succeeds exactly when every new certificate can be made; on the shared map every name that later certificate deployment looks up is then present, the seven fixed entries and all but the new hosts' entries are unchanged |
| `ServiceIP.Increment` | services/services.go:45-50 | the carry loop adds one modulo 256^n in place |
| `ServiceIP.MaskValue` | services/services.go:44-44 | masking rounds the address down to a multiple of two to the host bits (section 3.1 of RFC 4632) |
| `ServiceIP.NextAddressInNetwork` | services/services.go:39-52 | network address plus one stays in the network exactly when a host bit is left, and always differs from the network address |
| `ServiceIP.GetKubernetesServiceIP` | services/services.go:39-52 | the service address is the network address plus one |
| `Cluster.ClusterHosts.InvertIndexHosts` | cluster/hosts.go:48-95 | succeeds iff every role is recognised; then one new object per node, flagged etcd, control or worker exactly when its role list holds "etcd", "controlplane" or "worker", with the labels of its roles, shared by its lists in node order |
| `Cluster.PlacedIsFiltered` | cluster/hosts.go:52-83 | without repeated roles each list is the order-preserving filter of the nodes by that role |
| `Cluster.FlagsAgree` | cluster/hosts.go:65-83 | a host's flag for a role is set exactly when its object is in that role's list |
| `Cluster.RecognisedByName` | services/services.go:16-18 | exactly the names "etcd", "controlplane" and "worker" are recognised |
| `Cluster.RoleLabelByName` | cluster/hosts.go:65-83 | which label key stands for which role name |
| `Cluster.ClusterHosts.GetUniqueHostList` | cluster/cluster.go:241-256 | the hosts of the three lists, each once |
| `Cluster.UniqueHoldsEachNode` | cluster/cluster.go:241-256 | when every node has a role the unique list is a permutation of the nodes' hosts |
| `Cluster.SyncLabels` | cluster/reconcile.go:207-222 | from the first current host with a wanted host's address, the keys of its labels that the wanted host lacks go, with their values, into the labels to delete and all other keys stay; without such a host nothing changes |
| `Cluster.LabelsAfterSync` | cluster/hosts.go:60-92 | after synchronisation role labels are "true", configured labels have their value, labels of missing roles and dropped labels are gone, all others unchanged |
| `Kube.CordonOutcome` | k8s/node.go:28-54 | success has the node in the wanted state, failure changed nothing, and at most that field of that node differs |
| `Kube.CordonReads` | k8s/node.go:28-54 | at most one read a round and no delete request |
| `Kube.CordonUpdates` | k8s/node.go:28-54 | all rounds together make one successful update if the node changed and none otherwise |
| `Kube.DeleteOnlyCordoned` | hosts/hosts.go:119-142 | every delete request finds the node present and unschedulable |
| `Kube.DeleteOutcome` | hosts/hosts.go:119-142 | success without another role leaves all nodes but that one, failure at most cordons it, another role changes nothing |
| `Kube.DeleteCounts` | hosts/hosts.go:119-142 | at most seven reads, one successful update and one delete request |
| `KubeSuccess.CordonSucceeds` | k8s/node.go:28-54 | a cordon succeeds exactly when the node exists and one of the rounds reads it and, unless it is in the wanted state, updates it |
| `KubeSuccess.SixRounds` | k8s/node.go:28-54 | of a node that exists it fails exactly when all six rounds do |
| `KubeSuccess.DeleteSucceeds` | hosts/hosts.go:119-142 | a deletion succeeds exactly when its read does and the node is gone already, or can be cordoned and the last request does not fail |
| `KubeSuccess.QuietDelete` | hosts/hosts.go:119-142 | without failures a deletion succeeds, whether the node is there or not |
| `KubeSuccess.QuietCordonCalls` | k8s/node.go:28-54 | without failures a cordon makes one call for a node in the wanted state and three for any other, a read after the update included |
| `KubeSuccess.QuietDeleteCalls` | hosts/hosts.go:119-142 | without failures a deletion makes one, three or five calls: node absent, cordoned or neither |
| `Kube.Synced` | k8s/node.go:153-161 | to-add values win, to-delete keys go, all others stay |
| `Kube.ApplyLabels` | k8s/node.go:153-161 | the two map loops, in any order, compute it |
| `Kube.SyncOutcome` | k8s/node.go:105-120 | a success changed exactly that node's labels to the synchronised ones, a failure nothing |
| `Kube.SecondSyncOnlyReads` | k8s/node.go:140-173 | a second synchronisation only reads, whatever fails |
| `KubeSuccess.SyncSucceeds` | k8s/node.go:105-120 | a synchronisation succeeds exactly when one of the rounds reads the node, or finds none, and writes its labels where they are not in sync |
| `KubeSuccess.SixSyncRounds` | k8s/node.go:105-120 | the same with the six rounds of the source |
| `KubeSuccess.QuietSyncCalls` | k8s/node.go:140-173 | without failures it makes one call for a node that is in sync or does not exist and two for any other |
| `Kube.Client.CordonUncordon` | k8s/node.go:28-54 | state and result are those of six specified rounds |
| `Kube.Client.DeleteNode` | hosts/hosts.go:119-142 | state and result are those of the specified deletion |
| `Kube.Client.DoSyncLabels` | k8s/node.go:140-173 | state and result are those of one specified round |
| `Kube.Client.SyncLabels` | k8s/node.go:105-120 | state and result are those of at most six rounds |
| `MoveToEnd.LocalConfigAddressRoundTrip` | cluster/cluster.go:197-205 | the address read from the kubeconfig URL is the one written exactly when it has no colon |
| `MoveToEnd.MoveSelfToEnd` | cluster/reconcile.go:84-90 | the loop over the slice it rewrites yields a permutation that keeps the order of hosts with other addresses and ends in a host with that address if there is one |
| `MoveToEnd.OnlySelfMoves` | cluster/reconcile.go:84-90 | with one such host the result is the others in order, then that one |
| `RoleReconcile.ReconcileWorker` | cluster/reconcile.go:52-75 | the requests made are exactly those of deleting, one after the other, the dropped workers without the control flag, in order (a prefix of them on an error); clears their worker flag, removes their nodes, queues the taint only on new etcd hosts; without failures it succeeds |
| `RoleReconcile.ReconcileControl` | cluster/reconcile.go:77-118 | the requests made are exactly those of deleting the dropped control hosts without the worker flag, the kubeconfig's own host last (a prefix of them on an error); when no request fails it succeeds exactly when a client can be had for each and the configuration is rebuilt |
| `RoleReconcile.PassesOnce` | cluster/reconcile.go:52-118 | together the phases pass exactly the hosts dropped from every list they were in, each once |
| `RoleReconcile.ReconcileRoles` | cluster/reconcile.go:52-118 | in every run the requests made are those of deleting hosts that lost every worker and control role, none twice; when both phases succeed all of them, each once, the node objects are the former ones without theirs, and every delete found its node cordoned; when no request fails they succeed exactly when a client can be had for each control host and the configuration is rebuilt |
| `RoleReconcile.IndexedIsShared` | cluster/hosts.go:48-95 | the lists that indexing builds are shared in the way the two phases rely on |

## Left out

- SSH tunnels, HTTP and TLS clients, image pulls, registry authentication and log reading: only whether a call succeeds is modelled.
- Command line, prompts, logging, YAML manifests, templates, configuration defaults, validation, Docker version matching, timeouts and sleeps, port checks.
- Certificate contents, keys, PEM, kubeconfig text: certificates are uninterpreted values; the certificate deployer's container and the backup fetch are not modelled.
- The clean-up that `reconcileHost` makes on a deleted host's containers inside a reconcile; its errors are only logged.  The plane removals themselves are modelled.
- The etcd phase's own node deletion (it checks the control flag only) and `rebuildLocalAdminConfig`, of which only success or failure is seen.
- `doSyncTaints`, `RemoveTaintFromNodeByKey` and the taint that `RunWorkerPlane` puts on pure etcd hosts: `doSyncTaints` deletes by the index into the wrong list, so it does not do what its name says, and no other modelled operation reads taints.
- `GetEtcdConnString`, `CheckEtcdHostsChanged`, `regenerateAPICertificate`, `RollingUpdateNginxProxy`, `GetAltNames`, environment and path names: single facts of the same kind as modelled ones.
- Restart after a half-finished etcd add and recovery from a leftover `old-` container: the code promises neither.
- Containers of a role that a host lost but that no plane removal names: what a plane leaves on a host in any state is stated, convergence of the whole set for fresh hosts only.
- Extra etcd arguments: the source puts them into the entry point, which the comparison of containers does not read.
- A container's command that Docker reports as absent instead of empty: both are the empty sequence here.
- A node object without any label map, on which `doSyncLabels` would fail at run time.
- Other writers of node objects or membership while a reconcile runs.
- Starting of added members: a member keeps the empty name it is added with, because the code does not look at names between adds.  A removal for a name that no member has is refused by etcd.
- ServiceIP.GetKubernetesServiceIP: takes the address bytes and the prefix length, because parsing CIDR text belongs to the Go library.
- MoveToEnd.GetLocalConfigAddress: starts from the host URL, because loading the kubeconfig belongs to client-go.
- RoleReconcile.ReconcileControl: whether a new Kubernetes client can be built and whether the local configuration is rebuilt are parameters.
