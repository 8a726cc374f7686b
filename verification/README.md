# Hetzner Cloud controller manager: a Dafny model

The hcloud cloud controller manager keeps Hetzner Cloud load balancers, private network routes and node
metadata in step with Kubernetes objects. It works from copies of remote state that may be old, with caches and
a rate limiter in front of the remote APIs, and any remote call may fail. This project models that core and
proves what its loops do to the backend, for all inputs and over whole runs.

The backend is an object (`LoadBalancerApi.Client`, `Routes.NetworkApi`). Each mutating call may be accepted,
be refused because of a limit or a conflict, or fail with or without having taken effect; a call that asks for
something impossible (adding what is there, removing what is not) fails and is counted as misdirected. The
reconcilers are methods that loop as the program does, in arbitrary order where Go iterates over a map. Their
contracts say what the backend holds afterwards, whichever call fails; lemmas derive the promises from that.

| file | content |
|---|---|
| LoadBalancerApi.dfy | load balancers as the API holds them, and its calls |
| Targets.dfy, TargetReconciler.dfy, TargetFacts.dfy | which targets are kept and wanted; the removal loop and the two add loops; exact result, fixpoint, recovery, minimality |
| Services.dfy | annotations, the option builder, the service loop |
| LoadBalancerReconciler.dfy | labels, settings, networks, public interface |
| LoadBalancers.dfy, UpdateFacts.dfy | ensure, update and delete a service's load balancer; what an update misses |
| Outcomes.dfy | what ensuring comes to, in terms of the request alone: targets, attributes, network, and when it must succeed |
| Ownership.dfy | interleaved calls of all services, as a state machine over API requests |
| Cache.dfy, CacheRuns.dfy | the generic cache, and what holds over its runs |
| Robot.dfy | the rate limiter around the Robot list cache |
| Routes.dfy, Cidr.dfy | route upsert and listing; the containment test |
| ProviderId.dfy, RobotAddresses.dfy | provider IDs; addresses of Robot nodes |
| Wrappers.dfy, Sets.dfy | options, results, iteration over finite sets |

## Where the code does not do what one expects

Each of these is a lemma, with the exact condition where the expected property is a condition away.

- An IP of a Robot server stays mapped to it when private IPs overwrite it in the other direction, so a target
  with the external IP is kept beside the internal one: the result is "kept plus wanted"
  (`TargetFacts.KeptIPsExactly`, `TargetFacts.ExternalIPIsKept`).
- A second target run is quiet exactly if every wanted IP maps back to a Robot server of the cluster. With one
  IP listed for two Robot servers each run may remove what the last one added
  (`TargetFacts.RerunIsQuietExactly`, `TargetFacts.SharedIPIsNotCoherent`).
- An empty private-IPv4 annotation detaches an attached load balancer and does not attach it again
  (`LoadBalancerReconciler.StaleDecisionIsRightExactly`, `LoadBalancerReconciler.EmptyAnnotationDetaches`).
- A private-IPv4 annotation that is not in canonical form (such as an IPv6-mapped spelling) makes every run leave
  the network and join it again (`LoadBalancerReconciler.ResultIsQuietExactly`,
  `LoadBalancerReconciler.MappedSpellingIsNeverQuiet`).
- UpdateLoadBalancer does not read the load balancer again after changing its networks and its type. A target that
  is to be kept can be lost in it if and only if the target depends on private networks and some network has to be
  left (`UpdateFacts.UpdateLosesExactly`, with the run `UpdateFacts.UpdateCanLose`). A wanted target that was not
  there before is left out, with an event, if more are missing than fit by the maximum of the old type, even if
  they fit by that of the new one; when that can happen is stated exactly in `UpdateFacts.UpdateLeavesOutExactly`,
  with the run `UpdateFacts.UpdateCanLeaveOut`. And an update can fail by itself, before it comes to the services,
  by removing a target that has left already, if and only if some network has to be left and some target to be
  removed depends on private networks (`UpdateFacts.UpdateIsHinderedExactly`, `UpdateFacts.UpdateCanBeHindered`).
- A load balancer found by name is taken over even if it is labelled for another service
  (`Ownership.NamesTakeOver`, for any two services), and a deletion under way then deletes what has become another
  service's (`Ownership.NamesDelete`). Services are safe from each other if each keeps to names of its own: then
  a load balancer keeps its label through every run exactly until its own service deletes it
  (`Ownership.ServicesKeepTheirsExactly`).
- A list served from the cache may be incomplete once single fetches are mixed in, for two reasons: no list was
  fetched before (`CacheRuns.AllCanBeIncomplete`), or storing a single value evicted what was delivered more than an
  hour earlier (`CacheRuns.EvictionLosesTheList`). Which ids it lists, and when it lists all of the last list
  fetched, is stated exactly in `CacheRuns.AllListsExactly` and `CacheRuns.AllIsCompleteExactly`. A value just
  fetched is reported absent when more time than the maximum age passes before it is looked up again
  (`CacheRuns.AbsenceIsExact`).
- A call the rate limiter rejects may return neither result nor error
  (`Robot.RejectionCarriesErrorExactly`). For the list of servers that means: no servers, and every IP target is
  dropped (`TargetFacts.RejectedListDropsIPsExactly`).
- An empty name annotation makes every run send an update, because it never equals the name and is not sent
  (`LoadBalancerReconciler.ResultIsQuietExactly`).
- Not only printed provider IDs are accepted: the legacy form, a plus sign, leading zeros, a negative zero and the
  prefix repeated inside are, too. An accepted string is a printed one if and only if it is the cloud or the Robot
  prefix followed by a numeral as Go prints it (`ProviderId.PrintedExactly`, `ProviderId.RepeatedPrefixIsIgnored`).
- Domain, path, TLS and status code annotations of a health check take effect only if some other health check
  annotation or default is set (`Services.AddAndUpdateAgree`, `Services.DomainAloneIsIgnored`).

## Reading the contracts

- Within one reconciliation nothing else changes that load balancer. Interleaving is the subject of
  `Ownership`, and `Ownership.OperationsAreRuns` shows that what the operations of `LoadBalancers` may do is
  covered there.
- Targets are a set without two entries for one server or IP (`DistinctKeys`), networks, services and routes are
  maps, IP addresses and networks are strings in canonical form. That is how the API identifies them.
- `Calls` counts accepted, limited and failed calls, and of these the misdirected and conflicting ones;
  `DistinctIPs`, `NoClash` and `DistinctPorts` state the distinctness some results need.
- The contracts of `LoadBalancers` use the specification functions of the parts. What these mean together is said
  without them in `Outcomes`, by node, provider ID, protocol and annotation.
- `readable` says whether reading calls succeed. Operations report an error only with a reason: a reading call
  failed, a mutating call that was possible was not carried out (`Troubles`), or what is asked for cannot be done
  (`Workable`, `Creatable`). The one error without such a reason is that of an update that removes a target which
  left with a network (`Hindered`).
- Clock readings and API replies are parameters (`Env`) or arbitrary choices (`*`). Times are integers; the zero
  time of a never refreshed cache is an absent value, or the largest duration where Go's subtraction saturates.
- The client library sends no empty name in an update, and the API creates no load balancer without a name.
- Ids of load balancers, cloud servers and Robot servers are integers. Go's `int` is taken to have 64 bits.

## Model

| member | source | states |
|---|---|---|
| Targets.ReadNodes | internal/hcops/load_balancer.go:678-702 | fails exactly if some provider ID with a known prefix is unreadable; otherwise yields exactly the ids of cloud and of Robot nodes, and for each id the last node that has it |
| Targets.UnreadableExactly | internal/hcops/load_balancer.go:680-695 | a node is an error exactly if its provider ID begins as one of this provider does and what follows is no server number; nodes of other providers are skipped |
| Targets.GetNodeInternalIP | internal/hcops/load_balancer.go:1556-1563 | the address of the first entry of kind InternalIP, or the empty string |
| Targets.InternalIPIsFirst | internal/hcops/load_balancer.go:1556-1563 | there is at most one first InternalIP, and it is what the specification function yields |
| Targets.ReadRobotList | internal/hcops/load_balancer.go:717-750 | both maps are the result of assigning, server by server, the external and then the internal IP |
| Targets.ReadInternalIPs | internal/hcops/load_balancer.go:753-779 | without Robot credentials: exactly the Robot nodes with an internal IP are mapped, and each IP maps back to a node that has it, in any order of the nodes |
| Targets.BuildPlan | internal/hcops/load_balancer.go:670-779 | fails exactly in the four error cases, otherwise the maps are as specified by `IsPlan` |
| Targets.KeptByKind | internal/hcops/load_balancer.go:787-840 | the kept targets are the wanted servers, the IPs of Robot nodes and all label selectors, and their number is the sum of the three |
| TargetReconciler.Record | internal/hcops/load_balancer.go:787-840 | a server target is kept exactly if its server is a cloud node and it uses the kind of IP asked for, an IP target exactly if its IP belongs to a Robot node, a target of another type always; the two maps record exactly the kept servers and IPs |
| TargetReconciler.RemoveTargets | internal/hcops/load_balancer.go:781-847 | from a copy that may be older than the backend: exactly the wanted servers, the IPs of Robot nodes and all label selectors remain, and numberOfTargets is the sum of the three; wherever it fails no label selector is touched; at every round the number is that at the backend if the copy is exact; accepted calls are the dropped ones; it fails if a target to be dropped is gone from the backend, and only then a call is misdirected |
| TargetReconciler.RemovalCountIsTrue | internal/hcops/load_balancer.go:782-846 | numberOfTargets equals the number of targets at the backend at every point of the removal loop |
| TargetReconciler.AddOne | internal/hcops/load_balancer.go:859-884 | one round of an add loop: an event and no call at the maximum; an event if the API reports a limit; an error for any other failure; otherwise the target is added and counted |
| TargetReconciler.AddServers | internal/hcops/load_balancer.go:851-885 | the loop over cloud servers, in any order: every missing server is added or reported, or the loop stops at a failed call; only wanted and missing targets are added |
| TargetReconciler.AddRobots | internal/hcops/load_balancer.go:887-938 | the same for the loop over Robot servers, which skips those without IP |
| TargetReconciler.AddCountIsTrue | internal/hcops/load_balancer.go:859-937 | numberOfTargets equals the number of targets at the backend at every point of the add loops |
| TargetReconciler.Capacity | internal/hcops/load_balancer.go:859-862 | without a limit refused by the API, added = min(missing, max(0, MaxTargets - kept)) |
| TargetReconciler.AddTargets | internal/hcops/load_balancer.go:849-941 | both add loops together, each missing target counted once as added or as an event |
| TargetReconciler.ReconcileTargets | internal/hcops/load_balancer.go:781-942 | wherever it fails, kept targets stay, label selectors are the same, and only wanted ones come; on success the targets are those kept plus those added, with exact numbers of calls, events and additions; changed is true exactly if a call was accepted; nothing to do means no call; no call is misdirected from an exact copy with distinct IPs |
| TargetFacts.ReverseMapIsRight | internal/hcops/load_balancer.go:717-750 | with distinct IPs an IP maps to a server exactly if it was ever assigned to it |
| TargetFacts.KeptIPsExactly | internal/hcops/load_balancer.go:719-820 | an IP target is kept exactly if its IP was ever assigned to a Robot server of the cluster |
| TargetFacts.ExternalIPIsKept | internal/hcops/load_balancer.go:747-749 | the external IP of a Robot node is never removed, also when private IPs are used |
| TargetFacts.PlansAreCoherent | internal/hcops/load_balancer.go:711-779 | what is wanted is also kept: always without Robot credentials, otherwise if IPs are distinct |
| TargetFacts.OrderDoesNotMatter | internal/hcops/load_balancer.go:678-779 | the same targets are kept and wanted in whatever order the maps are filled |
| TargetFacts.RejectedListDropsIPsExactly | internal/hcops/load_balancer.go:711-820 | when the rate limiter rejects the list call, every IP target is dropped if and only if its second clock reading is past the wait; otherwise the reconciliation fails and drops none |
| TargetFacts.ExactResult | internal/hcops/load_balancer.go:781-942 | a run from an exact copy ends with K + min(D, max(0, MaxTargets - K)) targets and D minus additions events; without event the targets are exactly the kept and the wanted ones |
| TargetFacts.SameResultInAnyOrder | internal/hcops/load_balancer.go:753-942 | two runs from the same targets, with any iteration orders and enough room, end in the same targets |
| TargetFacts.RerunFindsNothing | internal/hcops/load_balancer.go:781-942 | after a run the same reconciliation has nothing to do, also if the first run stopped at the maximum |
| TargetFacts.RerunIsQuietExactly | internal/hcops/load_balancer.go:719-820 | with enough room the result is a fixpoint if and only if every wanted IP maps back to a Robot server of the cluster |
| TargetFacts.RerunIsQuietIfAddedAreKept | internal/hcops/load_balancer.go:781-942 | also with the maximum reached, the result is a fixpoint if and only if every added target is one the removal loop keeps |
| TargetFacts.SharedIPIsNotCoherent | internal/hcops/load_balancer.go:719-720 | a cluster with Robot server 1 and a list of two servers with one IP, for which the plan breaks that condition |
| TargetFacts.AttemptsKeep | internal/hcops/load_balancer.go:814-937 | any series of failed runs keeps the kept targets and brings only wanted ones |
| TargetFacts.Recovery | internal/hcops/load_balancer.go:814-937 | after any series of runs that failed at any call, a successful run ends in the targets an immediate success would have produced |
| TargetFacts.NoShorterPath | internal/hcops/load_balancer.go:787-939 | no series of single additions and removals between two target sets is shorter than the size of their difference |
| TargetFacts.RunIsMinimal | internal/hcops/load_balancer.go:787-939 | the number of accepted calls is that size: no other series of edits to the same result is shorter |
| Services.Step | internal/hcops/load_balancer.go:1429-1434 | an extraction step is skipped after an error; otherwise the value or the default is stored and the flag raised |
| Services.ConfiguredPlainly | internal/hcops/load_balancer.go:1436-1545 | annotation by annotation: a given value is the value of the option, a given health check protocol wins over the service protocol, defaults count where nothing is given |
| Services.OptsBuilder.ExtractProtocols | internal/hcops/load_balancer.go:1148-1172 | proxy protocol from annotation or default, protocol TCP if not given |
| Services.OptsBuilder.ExtractHTTP | internal/hcops/load_balancer.go:1174-1276 | the HTTP options are those annotated, and the flag is raised exactly if there are any |
| Services.OptsBuilder.ExtractHealthCheck | internal/hcops/load_balancer.go:1301-1422 | the health check options are those annotated or default; HTTP options only for HTTP and HTTPS |
| Services.OptsBuilder.Extract | internal/hcops/load_balancer.go:1141-1279 | extraction fails exactly if some annotation it reads is malformed, otherwise yields all given options |
| Services.AddAndUpdateAgree | internal/hcops/load_balancer.go:1436-1545 | every option given has the same, configured value whether the service is added or updated, whatever it was before; HTTP options of the health check are sent if and only if the check is asked for and is HTTP or HTTPS, and otherwise stay as they were |
| Services.DomainAloneIsIgnored | internal/hcops/load_balancer.go:1301-1490 | an HTTP service whose only health check annotation is the domain gets a TCP check without it |
| Services.UpdateIsIdempotent | internal/hcops/load_balancer.go:1492-1545 | updating again with the same options changes nothing, after adding and after updating |
| Services.ExposedByProtocol | internal/hcops/load_balancer.go:994-1004 | a port is exposed exactly if some service port has it, with protocol TCP or none |
| Services.ServedByProtocol | internal/hcops/load_balancer.go:982-1058 | then the listen ports and their options, port by port, are those of the ports with protocol TCP or none |
| Services.SyncPorts | internal/hcops/load_balancer.go:982-1044 | after the port loop each port with protocol TCP or none is served as configured, and `unused` holds exactly the old ports not exposed |
| Services.DeleteUnused | internal/hcops/load_balancer.go:1046-1058 | deletes exactly the unused services, one call each |
| Services.ReconcileServices | internal/hcops/load_balancer.go:965-1061 | on success the listen ports are exactly those of the ports with protocol TCP or none, each configured, with one call per such port and per old unused service; for distinct ports no call adds a present or updates or deletes an absent service; no error without a reason |
| LoadBalancerReconciler.ChangeInfo | internal/hcops/load_balancer.go:337-374 | the service label and the name are as specified in one call, all other labels kept; an empty name changes no name; no call if and only if nothing differs |
| LoadBalancerReconciler.ChangeSettings | internal/hcops/load_balancer.go:376-455 | reverse DNS names and algorithm are as specified, one call for each that differs |
| LoadBalancerReconciler.ChangeType | internal/hcops/load_balancer.go:457-489 | the type is as specified, and is not touched if no type is asked for |
| LoadBalancerReconciler.TogglePublic | internal/hcops/load_balancer.go:598-636 | the public interface is as specified |
| LoadBalancerReconciler.DetachFromNetwork | internal/hcops/load_balancer.go:491-518 | exactly the network (and IP) asked for stays; only targets that depend on a private network may be lost, and only if a network was left |
| LoadBalancerReconciler.AttachToNetwork | internal/hcops/load_balancer.go:520-596 | decides on the old copy; if it attaches, the network is joined with the IP asked for, after at most one retry |
| LoadBalancerReconciler.Attach | internal/hcops/load_balancer.go:575-593 | it fails only after a call that failed for another reason than a conflict, or after two calls with a conflict; after one conflict it tries once more |
| LoadBalancerReconciler.StaleDecisionIsRightExactly | internal/hcops/load_balancer.go:534-536 | the decision on the copy read before detaching equals the decision on the true state if and only if the annotation is not empty or the load balancer is not in that network with an IP |
| LoadBalancerReconciler.EmptyAnnotationDetaches | internal/hcops/load_balancer.go:499-503 | a concrete load balancer that is detached and then taken to be attached |
| LoadBalancerReconciler.NetworksEnd | internal/hcops/load_balancer.go:491-596 | detaching and attaching by the same old copy ends in exactly the configured network with the configured IP, or in none if the network id is 0, if and only if not an empty annotation meets an attached load balancer |
| LoadBalancerReconciler.ReconcileHCLB | internal/hcops/load_balancer.go:274-329 | on success everything is as specified; services, protection and other labels are never touched; if no network has to be left no target is lost; no change and no error is reported if and only if nothing differs from what is asked for (`NothingToChange`), and then no call was made |
| LoadBalancerReconciler.ResultIsQuietExactly | internal/hcops/load_balancer.go:274-329 | the result is a fixpoint, with no call in the next run, if and only if no empty name is annotated, and the annotated private IP is in canonical form or does not matter |
| LoadBalancerReconciler.MappedSpellingIsNeverQuiet | internal/hcops/load_balancer.go:499-541 | a concrete annotation for which it is not |
| LoadBalancers.FindByUID | internal/hcops/load_balancer.go:56-78 | the one load balancer labelled for the service, none if there is none, an error if there are several |
| LoadBalancers.Find | hcloud/load_balancers.go:127-146 | by label first, then by name |
| LoadBalancers.FindOrCreate | hcloud/load_balancers.go:127-154 | the load balancer worked on is the labelled one, or the one of that name, or a new one if there is neither; nothing else changes |
| LoadBalancers.ReconcileNodes | internal/hcops/load_balancer.go:640-942 | maps and loops together; if the maps cannot be built nothing happens; no reported change means the same targets |
| LoadBalancers.AttemptIsGentle | internal/hcops/load_balancer.go:781-942 | an attempt by one order of the maps adds only what is wanted and keeps what is kept by every order |
| LoadBalancers.Settle | hcloud/load_balancers.go:156-175 | after ReconcileHCLB and the reload the copy worked on equals the backend, whatever was lost with a network |
| LoadBalancers.EnsureFound | hcloud/load_balancers.go:156-195 | the sequence after the lookup, with both reloads: on success the copy returned is the backend and everything is as asked for, the targets computed from the state after the networks were settled |
| LoadBalancers.EnsureLoadBalancer | hcloud/load_balancers.go:103-195 | the same from the lookup on; wherever it fails (`Tends`) only one load balancer is touched, other labels and protection stay, no service gets two, only wanted targets come and kept ones stay but for private ones; targets stay distinct, so that calls can follow each other; an error has a reason other than the calls it makes |
| LoadBalancers.EnsuredTargets | hcloud/load_balancers.go:156-195 | final targets are wanted, or old and kept; no kept one is missing but for those lost with the private network, and none of these that is wanted unless the maximum was reached; the number is exact for the current type |
| LoadBalancers.UndisturbedTargets | hcloud/load_balancers.go:156-187 | without leaving a network and without an event the targets are exactly the wanted ones and the old ones that are kept |
| LoadBalancers.EnsuringRecovers | hcloud/load_balancers.go:156-195 | after any series of failed calls the first that succeeds ends in all that is wanted and what was kept from the start, but for unwanted private targets |
| LoadBalancers.EnsuringAgainIsQuiet | hcloud/load_balancers.go:156-195 | ensuring again, from the result, finds nothing to change and no target to add or remove |
| Outcomes.IsLabelled | internal/hcops/load_balancer.go:346-355 | after ensuring, the label `hcloud-ccm/service-uid` is the UID of the service and all other labels are as before; it is labelled for no other service |
| Outcomes.AttributesAsAsked | internal/hcops/load_balancer.go:357-489 | after ensuring, name, type, public interface, reverse DNS and algorithm are those asked for, or as before if nothing is asked for |
| Outcomes.NetworkAsAsked | internal/hcops/load_balancer.go:491-596 | after ensuring, the load balancer is in the configured network alone, with the configured IP, or in none |
| Outcomes.ServersExactly | internal/hcops/load_balancer.go:851-885 | after ensuring without events the server targets are exactly the cloud nodes, with the kind of IP asked for; never others |
| Outcomes.SelectorsStay | internal/hcops/load_balancer.go:781-847 | after ensuring the label selector targets are exactly those before, and only the room they leave is filled |
| Outcomes.NoIPs | internal/hcops/load_balancer.go:707-779 | without Robot support, or without credentials and private IPs, no IP target is left |
| Outcomes.InternalIPsExactly | internal/hcops/load_balancer.go:753-779 | without credentials but with private IPs the IP targets are exactly the first internal addresses of the Robot nodes, without events; never others |
| Outcomes.RobotNodesAreReached | internal/hcops/load_balancer.go:711-751 | with credentials, without events, each Robot node that is listed is reached: by its first internal address if private IPs are used and it has one, otherwise by the listed IP |
| Outcomes.NoOtherIPs | internal/hcops/load_balancer.go:711-820 | with credentials every IP target is the listed IP of a Robot node, or its first internal address if private IPs are used |
| Outcomes.PlainRequestsAreWorkable | internal/hcops/load_balancer.go:640-702 | nothing is wrong with a request whose nodes are cloud nodes or those of other providers, whose annotations are readable and whose service options are the defaults |
| Outcomes.NoReasonToFail | hcloud/load_balancers.go:103-195 | such a request cannot fail unless a call was not carried out, if the service has a load balancer or one can be created |
| LoadBalancers.UpdateLoadBalancer | hcloud/load_balancers.go:300-347 | targets and services as asked for, as seen from the copy read first; a service without load balancer is left alone; the same bounds on what a failing call may do, and distinct targets again; an error has a reason or is that of removing a target which left with a network, and in that case the services are not touched |
| UpdateFacts.UpdateIsAsGood | hcloud/load_balancers.go:337-345 | if no network has to be left and the maximum of targets stays, an update achieves what ensuring does |
| UpdateFacts.UpdateMisses | hcloud/load_balancers.go:337-345 | a target to be kept is missing afterwards exactly if it left with a network; a wanted one that was not there before is there unless an event was reported |
| UpdateFacts.AnyMayBeLost | hcloud/load_balancers.go:337-345 | whatever else the API could drop with the networks left, the same update succeeds without noticing |
| UpdateFacts.UpdateLosesExactly | hcloud/load_balancers.go:337-345 | some run of the update loses a target to be kept if and only if it depends on private networks and some network has to be left |
| UpdateFacts.UpdateCountsByOldMaximum | internal/hcops/load_balancer.go:869-920 | the number of targets added in an update is that for the maximum and the targets read before it changed the load balancer |
| UpdateFacts.UpdateLeavesOutExactly | hcloud/load_balancers.go:337-345 | some run of the update reports a target as not fitting although it fits by the new maximum if and only if more is missing than fits by the old one and what is sure to be kept and added is below the new one |
| UpdateFacts.EventsMeanMissing | internal/hcops/load_balancer.go:859-920 | with distinct IPs there is an event if and only if a wanted target is missing that was not there before |
| UpdateFacts.UpdateIsHinderedExactly | hcloud/load_balancers.go:337-345 | an update can want to remove a target that has left already if and only if some network has to be left and some target to be removed depends on private networks |
| UpdateFacts.UpdateCanBeHindered | hcloud/load_balancers.go:337-345 | a request for which an update fails by itself |
| UpdateFacts.UpdateCanLose | hcloud/load_balancers.go:337-345 | a request and a successful run that loses its only wanted target and makes no target call |
| UpdateFacts.UpdateCanLeaveOut | hcloud/load_balancers.go:337-345 | a request and a successful run that leaves a wanted target out although the new type has room for it |
| LoadBalancers.EnsureLoadBalancerDeleted | hcloud/load_balancers.go:349-376 | deletes only the one load balancer labelled for the service and never a protected one; on success none is left but a protected one; no error without a reason |
| LoadBalancers.StillOnePerService | hcloud/load_balancers.go:103-376 | an operation on the load balancer of a service, complete or not, leaves at most one per service |
| Ownership.LabelsAfter | internal/hcops/load_balancer.go:347-374 | a label for a service appears only through a request of that service, and only on its load balancer |
| Ownership.StepKeepsInv | hcloud/load_balancers.go:103-376 | every request, successful or not, keeps what each call in progress relies on |
| Ownership.StepPreserves | hcloud/load_balancers.go:354-376 | every request keeps protected load balancers, protection and all other labels |
| Ownership.OneLoadBalancerPerService | hcloud/load_balancers.go:127-154 | in every interleaving of calls for any services, with any failures, no service ever has two load balancers labelled for it |
| Ownership.NothingElseIsTouched | internal/hcops/load_balancer.go:347-374 | between any two moments of such a run a protected load balancer stays and a surviving one keeps all its other labels |
| Ownership.LabelIsLostExactly | internal/hcops/load_balancer.go:347-352 | in one request a load balancer loses a service label if and only if it is deleted, or a call of another service that works on it and read a copy without its own label writes that |
| Ownership.StepKeepsFit | hcloud/load_balancers.go:127-154 | then labelled load balancers, and those a call works on, always have a name of their service |
| Ownership.ServicesKeepTheirsExactly | hcloud/load_balancers.go:127-154 | if every service uses names of its own, a load balancer once labelled for a service is labelled for it at every later moment of every run, if and only if no call of that service has deleted it |
| Ownership.NamesTakeOver | hcloud/load_balancers.go:138-146 | in any state a call of any other service without load balancer can take one over under its name, in three requests |
| Ownership.NamesDelete | hcloud/load_balancers.go:354-376 | a run in which a deletion listed before the take-over deletes what is another service's by then |
| Ownership.OperationsAreRuns | hcloud/load_balancers.go:103-376 | whatever the three operations may do to the backend is a run of the state machine |
| Cache.Cache.RefreshOne | internal/cache/cache.go:224-280 | stores a fetched value under both keys and drops what is older than an hour; a failed or empty fetch changes nothing |
| Cache.Cache.RefreshAll | internal/cache/cache.go:282-313 | replaces both indexes by the fetched list under one time stamp; a failed fetch changes nothing |
| Cache.Cache.GetFromCache | internal/cache/cache.go:160-222 | answer and new indexes are those of the specification functions `AnswerOf` and `StoreAfter`, for both keys and all modes; what they mean is in the rows of CacheRuns |
| Cache.Cache.All | internal/cache/cache.go:127-158 | fetches exactly if the oldest entry is too old, and lists the index |
| Cache.Age | internal/cache/cache.go:136-143 | the age of the oldest entry, the largest duration for an empty index |
| CacheRuns.ReachableIsCoherent | internal/cache/cache.go:224-313 | in every reachable state each entry of either index has an entry at least as fresh under its other key, and every key is its value's |
| CacheRuns.EvictIsCoherent | internal/cache/cache.go:255-277 | evicting cannot separate the two indexes |
| CacheRuns.NothingOlderThanAnHour | internal/cache/cache.go:252-277 | after storing a single value nothing older than an hour is left, and the value is found under both keys |
| CacheRuns.EveryEntryWasFetched | internal/cache/cache.go:224-313 | every entry ever held was delivered by a successful fetch of the run at the time it carries |
| CacheRuns.BoundedStaleness | internal/cache/cache.go:160-222 | a value returned bears the key asked for and was fetched at most this call's maximum age before the deciding lookup |
| CacheRuns.AbsenceIsExact | internal/cache/cache.go:192-221 | after a miss, "no such resource" is answered if and only if the fetch did not hold the key or the clock passed the maximum age meanwhile; an expired entry is never returned; a failed fetch changes nothing |
| CacheRuns.OneSnapshot | internal/cache/cache.go:282-313 | with list refreshes only, both indexes always come from one list fetch with one time stamp |
| CacheRuns.AllReturnsOneFetch | internal/cache/cache.go:127-158 | in such runs All returns exactly what one fetch returned, no older than the maximum age |
| CacheRuns.AllIsFresh | internal/cache/cache.go:127-158 | in any run each value All lists was delivered by this call's fetch or by an earlier one at most the maximum age ago |
| CacheRuns.IndexedExactly | internal/cache/cache.go:224-313 | in every run an index holds for an id or a name the value delivered last, in the last list fetch or since, if and only if no single store came more than an hour after that delivery; otherwise it holds nothing |
| CacheRuns.StoreOneFinds | internal/cache/cache.go:224-280 | storing a single value overwrites what has its id or name, and keeps of the rest what is at most an hour old |
| CacheRuns.LookupExactly | internal/cache/cache.go:160-222 | in every run: a value delivered last, not evicted and not older than the maximum age is the answer, and nothing changes; otherwise the answer is an error if this call's fetch failed, and what that fetch holds if not, so that "no such resource" needs a fetch of this call that succeeded |
| CacheRuns.OffPassesOn | internal/cache/cache.go:169-173 | with the cache off the API's reply is the answer and nothing is stored |
| CacheRuns.LastIsLast | internal/cache/cache.go:296-310 | of several values with one id or name in a fetched list the last one counts |
| CacheRuns.AllListsExactly | internal/cache/cache.go:127-158 | All lists exactly the ids for which that holds, each with the value delivered last |
| CacheRuns.AllIsCompleteExactly | internal/cache/cache.go:127-158 | All lists every id of the last list fetched if and only if no single value was stored since, or each of them was delivered at most an hour before the last single store |
| CacheRuns.EvictionLosesTheList | internal/cache/cache.go:255-277 | a run in which one single fetch evicts a fetched list |
| CacheRuns.AllCanBeIncomplete | internal/cache/cache.go:136-157 | after one single fetch All lists less than the API has |
| Robot.CachedClient.UpdateCacheIfNecessary | internal/robot/cache.go:62-85 | fetches exactly if the timeout has passed, and replaces list and map together |
| Robot.CachedClient.Do | internal/robot/cache.go:33-91 | each request answers from the cache as specified; resets always go to the API |
| Robot.RateLimitClient.IsExceeded | internal/robot/ratelimit.go:63-75 | true exactly until the wait is over, and then opens the gate |
| Robot.RateLimitClient.Do | internal/robot/ratelimit.go:28-92 | state and answer of a guarded call are those of the specification functions |
| Robot.GateStaysShut | internal/robot/ratelimit.go:58-75 | after the API answered a call with a rate-limit error, list calls made to fill the cache included, the gate is shut until the wait is over, whatever calls come between |
| Robot.RateLimitSpacing | internal/robot/ratelimit.go:28-85 | after such an answer no call passes before the wait time is over, and one that does not pass makes no list call |
| Robot.ErrorsArePassedOn | internal/robot/ratelimit.go:28-85 | the caller gets the error of the API as it is, and a rate-limit error shuts the gate at that time |
| Robot.GateExactly | internal/robot/ratelimit.go:63-85 | a call passes if and only if every rate-limit error of the API before it was handled at least the wait time ago |
| Robot.ListsExactly | internal/robot/cache.go:62-90 | a call asks the API for a list if and only if it passes, is no reset, and every list fetched before is at least the timeout old |
| Robot.ListSpacing | internal/robot/cache.go:62-85 | after a successful list call no other reaches the API before the timeout is over |
| Robot.CacheIsLastReply | internal/robot/cache.go:68-84 | the cached list, and its time, are the reply of the last successful list call |
| Robot.ServerGetSearchesLastList | internal/robot/cache.go:33-48 | a lookup that is not refused answers as a search of the last list fetched |
| Robot.SearchFindsLast | internal/robot/cache.go:76-80 | of several servers with one number the last listed is found, and none exactly if there is none |
| Robot.ServerGetListReturnsLastList | internal/robot/cache.go:50-59 | a list request that passes and does not fail answers with the last list fetched |
| Robot.RejectionCarriesErrorExactly | internal/robot/ratelimit.go:87-92 | a rejected call carries an error if and only if its second clock reading is still within the wait |
| Routes.Routes.UpsertRoute | hcloud/routes.go:221-281 | on success the table is the old one with this route set; on failure, which a failed call must have caused, it is the old one, the old one without the stale route, or the final one; no call if the route is there; at most two calls |
| Routes.RetriesConverge | hcloud/routes.go:221-281 | however many attempts fail, the one that succeeds ends in the table of an immediate success, and no other destination is touched |
| Routes.Routes.ListRoutes | hcloud/routes.go:84-124 | one entry per route, naming a server exactly if that is the last listed one whose IP is the gateway |
| Routes.OwnerOwns | hcloud/routes.go:97-118 | the name found for an IP is that of the last listed server with it |
| Routes.BlackholeExactlyWhenUnowned | hcloud/routes.go:97-118 | a route is a blackhole exactly if no server owns its gateway IP |
| Cidr.WarnsExactlyWhenNotContained | hcloud/routes.go:323-337 | no warning is emitted if and only if every address of the route lies in the cluster network, for IPv4, IPv6 and one of each |
| Cidr.StrayEscapes | hcloud/routes.go:323-337 | when a warning is emitted the base or the highest address of the route lies outside |
| Cidr.ContainsByDivision | hcloud/routes.go:323-327 | a network of width w and prefix length n contains an address of its family if and only if both give the same number when divided by 2 to the power w - n |
| ProviderId.ParsePrinted | internal/providerid/providerid.go:64-83 | every signed 64-bit number, both limits included, survives printing and parsing |
| ProviderId.RoundTrip | internal/providerid/providerid.go:46-83 | printed cloud, Robot and legacy Robot ids parse to the number and the kind |
| ProviderId.FamiliesNeverCollide | internal/providerid/providerid.go:46-83 | no two ids of different families, or of different numbers in one family, print alike |
| ProviderId.NormalForm | internal/providerid/providerid.go:46-83 | printing what was parsed is a normal form; two accepted strings have one normal form exactly if they name one server |
| ProviderId.PrintedExactly | internal/providerid/providerid.go:46-83 | an accepted string is the printed form of what it parses to if and only if it is the cloud or Robot prefix followed by a canonical numeral |
| ProviderId.RepeatedPrefixIsIgnored | internal/providerid/providerid.go:46-60 | the prefix repeated before or inside the number is invisible to the parser, for all three prefixes |
| ProviderId.ForeignExactly | internal/providerid/providerid.go:46-62 | a string is one of another provider exactly if it begins with none of `hcloud://`, `hrobot://` and `hcloud://bm-` |
| ProviderId.ErrorsExactly | internal/providerid/providerid.go:64-72 | after each of the prefixes: nothing and no number are different errors, and a number is the id of a server of that family |
| ProviderId.Minus | internal/providerid/providerid.go:68-72 | a minus before digits negates the number, if it fits into 64 bits with a sign |
| ProviderId.PlusAndZero | internal/providerid/providerid.go:68-72 | a plus or a zero before digits changes nothing |
| ProviderId.NoNumber | internal/providerid/providerid.go:68-72 | no digits, or anything but digits after the sign, is no number |
| RobotAddresses.RobotNodeAddresses | hcloud/instances.go:271-340 | the loop computes `Addresses`, and every InternalIP is forwarded or warned about |
| RobotAddresses.ForwardedIsSublist | hcloud/instances.go:294-337 | forwarded addresses are an order-preserving sub-list of the InternalIPs that fit the family and repeat no earlier address |
| RobotAddresses.ForwardedAreDistinct | hcloud/instances.go:322-335 | forwarded addresses are pairwise distinct and equal no address before them |
| RobotAddresses.EveryFittingAddressOccurs | hcloud/instances.go:294-337 | every InternalIP of the right family occurs in the result |
| RobotAddresses.ExternalByFamily | hcloud/instances.go:278-292 | the external addresses are exactly the IPv4 address, unless only IPv6 is configured, and the first address of the IPv6 network, unless only IPv4 is; the host name is the server's |
| RobotAddresses.InternalByFamily | hcloud/instances.go:294-337 | the internal addresses are exactly those of the node that fit the family and are not listed as host name or external address; none without forwarding |
| RobotAddresses.AddressesAreAFixpoint | hcloud/instances.go:271-340 | computing again from the result written back to the node changes nothing |

## Left out

- Ensure, update and delete do not model node selection, the status returned to Kubernetes (host name, ingress
  IPs), event texts, logging and metrics.
- HTTP clients, `WaitFor` and the API libraries: a call together with waiting for its action is one step.
- `LoadBalancers.Create`: location, network zone, algorithm and the choice of the type are inputs (`placed`,
  `createType`, `createPublic`); the algorithm given at creation is not recorded, because the reconciliation that
  follows sets an annotated one.
- `LoadBalancerReconciler.AttachToNetwork`: the subnet range is an input that is usable or not, and the API's
  choice of an IP in it is arbitrary; the delay before the retry is not modelled.
- `LoadBalancers.EnsureLoadBalancerDeleted`: a load balancer that vanishes between listing and deleting is not
  an error in the program; here nothing else deletes it meanwhile.
- `LoadBalancers.UpdateLoadBalancer`: reaches the result of ensuring only where `UpdateFacts.UpdateIsAsGood` says so, because
  the program does not read the load balancer again.
- `Services.ReconcileServices`: certificates are resolved elsewhere; whether the managed one is ready is an input,
  and one that is not ready is an error.
- `Cidr.WarnsExactlyWhenNotContained`: IPv4-mapped spellings of IPv6 networks, which Go reads as IPv4 addresses with a
  longer mask, are not modelled.
- `Robot.RateLimitClient.Do`: calls come one after the other, as the program takes no lock there.
- `Cache.Cache.GetFromCache`: each call is one step, as the program holds a mutex; calls in mode off are not
  locked and touch nothing.
- `RobotAddresses.RobotNodeAddresses`: whether a text is an IPv4 address is a parameter.
- Annotation texts (booleans, durations, lists, label selectors), configuration and environment: parsed values
  are inputs.
- Deleting routes, creating routes for a node by name, addresses of cloud nodes, instance metadata and instance
  lookup: no property beyond their bodies.
- Changes people make to load balancers while a run of `Ownership` is under way.
