# Azure Pipelines agent scaler: a Dafny model

The operator keeps pools of Azure Pipelines agents on Kubernetes. A reconcile loop runs for ever over the agent
pods, the pending jobs and the persistent volume claims that serve as reusable caches. This project models that
loop, and the fake platform the repository exercises it with, and proves what each part is for:

* **Cache volumes** (`Lease`, `Operator`, `ClaimLimits`, `Volumes`, `Disappeared`). A claim is promised to a pod by an
  annotation, mounted by it and released when the pod has ended or was missing for a while. `Lease` is the protocol as a
  state machine whose steps are single API calls, pod events, clock ticks and crashes of the operator, with stale reads;
  `Operator` is the code as a program on that machine, with other steps between any two of its calls.
* **Scaling** (`Listing`, `Scaler`, `Passes`, `Runs`, `Convergence`, `Uncounted`, with `Bags` and `Tally` for counting).
  `Listing` is what the loop gets to know of a cluster that changes under it, `Scaler` and `Passes` are the loop;
  `Convergence` says what one pass may do to a template's bag of demand strings and where repeated passes lead; `Runs`
  carries that over to the pods of the cluster and the requests of the platform; `Uncounted` shows the demands for which
  the counting fails.
* **Capability index** (`Capabilities`, `Index`, `Collisions`, `Requests`, `ExtraContainers`, `Text`). Printing,
  parsing, grouping and matching of capability maps, on which the counts of the scaler rest.
* **Housekeeping** (`Idle`, `Sidecars`, `Retention`, `DummyAgents`).
* **Job assignment** (`FakePlatform`, `Races`). The agents that race for jobs, first with requests and test calls as single
  steps, then with the handling of a request taken apart, since only the handlers take the lock.

Objects that the code updates in place are classes whose methods are proved against functions of their state; map
iteration is a loop that takes the keys in any order; API calls may be refused, succeed, or succeed with an error reply,
and a ghost counter of failed calls keeps methods from reporting a failure that did not happen.
`dafny verify dfyconfig.toml` checks everything.

## What the code relies on

None of this is enforced by the operator; it appears as a `requires` clause, or as part of a step, where it is needed.

* Kubernetes accepts an update only for the object version it was read at. Pod names are never used twice
  (`Lease.Enabled`, step `Begin`); a claim name that is taken makes the call fail.
* Nothing but the operator makes a pod count: between and during passes pods start, end and vanish, but none comes back from
  the Unknown phase, is pending again after it was running, or changes its capabilities (`Listing.Evolves`). A pod in the
  Unknown phase is not counted and may be replaced; if it came back, it would count again.
* No pod begins to run between the list of running and the list of pending pods of one pass (`Listing.Steady`); otherwise it is
  in neither (`Runs.StartingPodIsMissed`).
* When the absence of a pod is acted on, the pod list is current or was superseded at most 5 s ago. The theorem
  `Lease.SafeExactlyWithinGrace` shows that this is exactly what is needed.
* `MinCount <= MaxCount`. The branch for MinCount ignores MaxCount; the general bounds are stated with both.
* Templates have separator-free capabilities without empty values and without extra containers, different templates have
  different capabilities, and template annotations hold neither the termination mark (`Passes.WellFormed`, `Passes.Plain`)
  nor an idle stamp (`Idle.IdleWatch.Add`). Request demands are separator-free (`Passes.CleanRequests`): otherwise a
  created pod is not counted again (`Uncounted.GoodKeyExactlyWhenClean`). Jobs with such demands are still counted right
  unless they have empty values (`Collisions.JobCountExact`, `Collisions.EmptyValuesCollide`).
* No test cancels a job or resets the fake platform between a handler's look-up of a job and its store
  (`Races.Undisturbed`). The theorems of `FakePlatform` hold under this condition; `Races` says exactly when IDs stay
  unique without it, and what happens otherwise.
* A cache volume is mounted at most once per pod (`Operator.OncePerPod`), because a created claim is not added to the
  list the allocator works on. `Volumes.BoundKeptExactlyWhenRoom` says what happens otherwise.
* The lists of the scaler and of the idle check show the state of the moment they are made. Terminated pods have a start time.
* The digest of a resource separates different lists of capabilities (`DummyAgents.Separates`); it may differ between
  encodings of one resource, since maps are encoded in any order. That the hash in the names of dummy agents separates
  capabilities (`DummyAgents.Injective`) is not true of all capabilities; see below.

## Where the code differs from its own words

* `IsInexactMatch` is documented as "all elements of the input are also in m"; an absent key equals an empty value.
* The comment on `GetSortedStringificationOfMap` shows "," between pairs; the code writes ";".
* After a swallowed exhaustion error the loop logs success and uses up one of the allowed creations; the model does the
  latter.
* One dummy agent is meant to be registered per template, but where a key ends and its value begins is not hashed, so
  {a: bc} and {ab: c} share one (`DummyAgents.SplitDifferently`).
* Dead agents are collected with one resource's names to keep, so another resource's dummy agents are not spared
  (`DummyAgents.SurvivesOthersWhileTolerated`); an agent that falls under both prefix rules is deleted twice, and the second
  deletion fails the collection (`DummyAgents.Housekeeper.CollectAgent`, `DummyAgents.ResourceNamedLikeDummies`).
* MaxCount does not bound pods that are not counted: a job whose demand holds a separator, and no longer matches once it is
  printed and parsed, gets another pod in every pass (`Uncounted.UncountedDemandNeverEnds`,
  `Uncounted.PairAfterContainers`).
* MinCount is filled with pods of the template's own capabilities, which jobs with extra containers cannot use, so a
  template may end above min(Max, max(jobs, Min)) (`Convergence.FillingOvershoots`).
* AddJob means to keep job IDs unique, but AddJob, CancelJob and Reset do not take the lock
  (`Races.CancellationCanDoubleAJob`).
* Finishing a job is not tied to having been assigned to it (`FakePlatform.StaleAgentFinishesNewJob`); it is the agent's own job
  exactly as long as the ID was not removed (`FakePlatform.FinishesOwnJobExactlyWhenNotRemoved`).

## Model

| member | source | states |
|---|---|---|
| Lease.SafeExactlyWithinGrace | internal/controller/autoscaledagent_controller.go:549-581 | In every run of API calls, pod events, clock ticks and operator crashes, every claim a live pod mounts is promised to exactly that pod and no two live pods share a claim - if and only if pod lists lag by at most the 5 s that a pod must be missing before its promise is withdrawn. |
| Lease.RunKeepsInvariant | internal/controller/autoscaledagent_controller.go:447-581 | The invariant behind it is kept along every run: promises of live pods are held, every listed version of a claim precedes the current one, a pod that exists was in every list current after it was noted missing, a claim being released belongs to a dead pod. |
| Lease.CheckKeepsInvariant | internal/controller/autoscaledagent_controller.go:549-567 | The decision to release, taken on any past version of the claim and on a pod list at most the grace period old, is only ever taken for a pod that is terminated or no longer exists. |
| Lease.TakeKeepsInvariant | internal/controller/autoscaledagent_controller.go:450-457 | Promising a claim that some past list showed as free, by a version-checked update that may be applied, refused or applied with an error reply, never takes a claim from a live pod. |
| Lease.MakeKeepsInvariant | internal/controller/autoscaledagent_controller.go:466-499 | A new claim is promised to its pod from the start, so creating it keeps exclusivity even if the reply is lost. |
| Lease.ReleaseKeepsInvariant | internal/controller/autoscaledagent_controller.go:567-572 | Withdrawing the promise that was looked at, if the claim is still at that version, keeps exclusivity. |
| Lease.LostRepliesTakeEffect | internal/controller/autoscaledagent_controller.go:450-499 | An update or a creation whose reply is lost has taken effect all the same, while the operator gives the creation up; a rejected one has changed nothing. |
| Lease.GoneIsDead | internal/service/utils.go:525-535 | A pod absent from a list that lags by at most 5 s, and first missed more than 5 s ago, does not exist. |
| Lease.StaleListsShareAClaim | internal/controller/autoscaledagent_controller.go:562-567 | With lists that may lag by more than 5 s there is a run at whose end two live pods mount one claim. |
| Disappeared.DisappearedPods.HasPodPermanentlyDisappeared | internal/service/utils.go:525-543 | True exactly when the remembered (or just noted) first miss is more than 5 s old; afterwards the memory is the old one with that miss, less everything older than 60 s. |
| Disappeared.DisappearedPods.ForgetOld | internal/service/utils.go:535-540 | The sweep over the map, in any order, drops exactly the entries older than 60 s. |
| Disappeared.GoneWasMissedLongAgo | internal/service/utils.go:525-535 | Over any history of calls: a pod is declared gone only if the same name was passed more than 5 s earlier, or the call itself took that long. |
| Disappeared.SecondLookDeclaresGone | internal/service/utils.go:525-543 | After a recorded first miss, and until 60 s have passed, a later call answers true if and only if it asks more than 5 s after that miss. |
| Disappeared.RememberedWasLookedUp | internal/service/utils.go:526-528 | Every remembered instant is that of an actual look-up of that pod. |
| Operator.VolumeOperator.AssignOrCreatePvcs | internal/controller/autoscaledagent_controller.go:425-523 | The allocator as a program of single API calls with other steps between any two of them: what it does follows the plan for the list it saw up to the first failing call, every cache mount in order gets a claim of its volume, the pod holds exactly those claims on success, and the cluster grows by exactly the claims the plan creates. |
| Operator.VolumeOperator.ClaimFor | internal/controller/autoscaledagent_controller.go:447-500 | One mount: if the volume has a free listed claim, the one with the least name is promised, or one is created below the limit, or the volume is reported exhausted - and only then. |
| Operator.VolumeOperator.PromiseClaim | internal/controller/autoscaledagent_controller.go:450-456 | A promise that succeeds is on a claim of the volume the list showed; a failed one aborts the allocation; no claim appears, disappears or changes its volume. |
| Operator.VolumeOperator.MakeClaim | internal/controller/autoscaledagent_controller.go:466-499 | A claim that is created belongs to the volume and to the pod; a storage size that does not parse, a name that is taken and a failed call abort the allocation. |
| Operator.VolumeOperator.ProvisionPod | internal/controller/autoscaledagent_controller.go:412-419 | Claims first, then the pod, with other steps before each call and between the last claim and the pod: a created pod is pending, mounts exactly its granted claims and holds their promises; if no pod held two claims of a volume before, none does afterwards. |
| Operator.VolumeOperator.LaunchPod | internal/controller/autoscaledagent_controller.go:412-419 | Between the last claim and the creation of the pod no promise is lost; a reply that reports an error leaves open whether the pod exists. |
| Operator.VolumeOperator.DeletePromisedAnnotationFromPvcs | internal/controller/autoscaledagent_controller.go:528-585 | Promises are only withdrawn from pods that are dead by then, and only if the pod is not listed as pending, running or unknown. A pass without a failed call withdraws every listed promise to a pod listed as succeeded or failed, and to one missing for more than 5 s, and, if it takes less than 55 s, knows all other missing pods as missing. |
| Operator.VolumeOperator.ConsiderClaim | internal/controller/autoscaledagent_controller.go:549-573 | One listed promise: withdrawn, if no call fails, when the pod is listed as succeeded or failed; nothing at all is done when it is listed as pending, running or unknown; no other claim's promise changes. Look-up and update are at different instants. |
| Operator.VolumeOperator.ListPvcs | internal/controller/autoscaledagent_controller.go:432-445 | The claims of some past version of the cluster, each once, in the order of the characters of their names. |
| Operator.CacheMountsInOrder | internal/controller/autoscaledagent_controller.go:447-449 | The mounts that need a claim are those of cache volumes, in the order of the pod's mounts and as often as they occur there. |
| Operator.WeakenedStaysSingle | internal/controller/autoscaledagent_controller.go:567-572 | Withdrawing promises never makes a pod hold two claims of one volume. |
| ClaimLimits.ClaimsNeverExceedLimit | internal/controller/autoscaledagent_controller.go:447-499 | Over any number of allocations with up-to-date lists, completed or not, the claims of a volume never exceed both their initial number and the summed MaxCount of the templates that mount it. |
| ClaimLimits.AllocationKeepsLimit | internal/controller/autoscaledagent_controller.go:458-463 | The same for one allocation, wherever it stopped. |
| ClaimLimits.NeverRefusedBelowMaxCount | internal/controller/autoscaledagent_controller.go:461-463 | With an up-to-date list, a pod of a template below its MaxCount is never refused for want of claims, while the promises belong to live pods of templates that mount the volumes, one claim of a volume each, and no template exceeds its MaxCount. |
| ClaimLimits.NoPassReportsExhaustion | internal/controller/autoscaledagent_controller.go:203-226 | All creations of a pass, one after the other: they keep those conditions, so none is refused as long as no more are attempted than the templates have room for. |
| ClaimLimits.CreateInTurn | internal/controller/autoscaledagent_controller.go:203-226 | The loop over such creations, with other steps in between: with up-to-date lists none is refused for want of claims, if there was room for all of them when it began and every promise belonged to a live pod that may have it; it ends early only after a failed call. |
| ClaimLimits.TwoPassesReleaseMissing | internal/controller/autoscaledagent_controller.go:549-572 | A promise to a pod that was never created does not last: of two passes more than 5 s and less than 55 s apart, one withdraws it. |
| Volumes.ComputePvcMaxCountsPerReusableCacheVolume | internal/service/utils.go:481-504 | The nested map loops compute, for exactly the volumes some template mounts, the sum of MaxCount over those templates, each counted once. |
| Volumes.VolumesUsedBy | internal/service/utils.go:484-492 | The cache volumes that occur among the mounts of some container of the template, each once. |
| Volumes.LimitOneMore | internal/service/utils.go:481-504 | One more template raises the limit of exactly the cache volumes one of its containers mounts, by its MaxCount. |
| Volumes.IsPvcLimitExceeded | internal/service/utils.go:506-518 | True exactly when the listed claims of the volume number at least that sum (0 for an unused volume). |
| Volumes.GetUnpromisedPvc | internal/service/utils.go:464-473 | The first listed claim of the volume without a promise, or none if all are promised. |
| Volumes.ExhaustedExactlyWhenShort | internal/controller/autoscaledagent_controller.go:447-463 | The allocator reports exhaustion exactly when some volume is mounted more often than claims are free and is at its limit. |
| Volumes.CreatesWhatIsMissing | internal/controller/autoscaledagent_controller.go:449-499 | A completed allocation creates exactly the claims its mounts need beyond the free ones. |
| Volumes.BoundKeptExactlyWhenRoom | internal/controller/autoscaledagent_controller.go:449-499 | It keeps a volume within max(claims before, limit) exactly when its mounts fit into the free claims plus the room left; one mount per volume always does. |
| Volumes.NeverExhaustedBelowMaxCount | internal/service/utils.go:481-518 | The pigeonhole: with one promise per live pod of a mounting template, and one template below its MaxCount, no volume of that template is exhausted. |
| Volumes.UsersBelowLimit | internal/service/utils.go:481-504 | The live pods of the templates that mount a volume are at most the limit, and fewer if one of them is below its MaxCount. |
| Capabilities.GetSortedStringificationOfCapabilitiesMap | internal/service/utils.go:402-417 | Prints the pairs in the unique ascending order of the keys. |
| Capabilities.PrintsInOrder | internal/service/utils.go:402-417 | The printed form is the pairs key=value joined by ";", in the order of the characters of the keys. |
| Capabilities.GetCapabilitiesMapFromString | internal/service/utils.go:419-434 | The parsed map; parts without a separator are dropped and later pairs win. |
| Capabilities.ParseAnother | internal/service/utils.go:419-434 | One more part of a capability string adds or overrides one pair, cut at its first "=", and does nothing if it has none. |
| Capabilities.RoundTripExactlyWhenClean | internal/service/utils.go:402-434 | Parsing undoes printing if and only if no key holds "=" or ";" and no value holds ";". |
| Capabilities.ParseIsClean | internal/service/utils.go:419-434 | Every parser result meets that condition. |
| Capabilities.PrintInjective | internal/service/utils.go:402-417 | On maps that meet it, equal printed forms mean equal maps. |
| Capabilities.ParsePrintParse | internal/service/utils.go:402-434 | A parsed capability string prints and parses back to itself, so a created pod is grouped under one string for ever. |
| Text.SortedListingUnique | internal/service/utils.go:408 | The sorted order of a set of keys is unique, so map iteration order never shows. |
| Text.LeqExactlyWhenNoLater | internal/service/utils.go:408 | The order of sorted strings: a prefix comes first, and otherwise the first character that differs decides. |
| Text.SplitJoin | internal/service/utils.go:416-422 | Splitting undoes joining for parts without the separator. |
| Text.JoinSplit | internal/service/utils.go:422 | Joining the parts of a split gives the string back. |
| Index.IsInexactMatch | internal/service/structs.go:139-159 | True exactly when the two maps agree on every key, an absent key counting as an empty value and extra containers being ignored unless asked for. |
| Index.AddToGroups | internal/service/structs.go:211-225 | The element joins the one group with its capabilities, or founds it. |
| Index.GroupingConserves | internal/service/structs.go:186-226 | Groups are distinct, none is empty, and each holds exactly the elements with its capabilities, in arrival order. |
| Index.GetInexactMatch | internal/service/structs.go:174-184 | The matching groups by printed capabilities; of two that print alike the later one stays. |
| Index.CountExactWhenPrintApart | internal/service/utils.go:377-400 | The count obtained through the map equals the number of matching elements if and only if no two matching groups print alike. |
| Index.FoundIsMatching | internal/service/structs.go:266-276 | Whatever is found under a key was added with matching capabilities. |
| Collisions.JobCountExact | internal/service/utils.go:391-400 | Without empty demand values the job count of a match is the number of matching requests, even when values hold separators. |
| Collisions.MatchesPrintApart | internal/service/structs.go:174-184 | Two capability maps without empty values that match one template and print alike are equal. |
| Collisions.EmptyValuesCollide | internal/service/structs.go:174-184 | With empty values it can be too low: two maps that both match and print alike, of which one is lost. |
| Collisions.EmptyDemandsLoseARequest | internal/service/structs.go:186-200 | Requests that lead there: two pending requests with demands that have no values, of which only one is counted. |
| Collisions.TemplatesDoNotOverlap | internal/service/structs.go:139-159 | Templates with different capabilities, no empty values and no extra containers never match the same pod. |
| Collisions.MatchesExactlyWhenSame | internal/service/structs.go:139-159 | Without empty values, a match is equality of the maps apart from extra containers, which must be the same if and only if the template asks for some. |
| Requests.PendingJobsWrapper.AddJobRequest | internal/service/structs.go:186-226 | The request is added, once, to the group of its parsed demands; every request added so far is in exactly one group. |
| Requests.DemandMeans | internal/service/structs.go:188-200 | A version demand is ignored; a demand without " -equals " stands for the value 1; with it once it gives key and value; with it more often it is ignored. |
| Requests.TrimsExactly | internal/service/structs.go:194-197 | Keys and values lose the white space around them and nothing else. |
| Requests.GetPendingJobs | internal/service/utils.go:75-89 | A request occurs in the groups as often as it was received if it has no result, and not at all otherwise. |
| Requests.PendingGrouped | internal/service/utils.go:83-89 | The same of the specification that the scaler's counts rest on. |
| Scaler.OneMoreRequest | internal/service/utils.go:83-89 | One more request counts once, under its printed demands, for exactly the templates it matches; a finished one does not count. |
| Requests.NewRunningPodsWrapper | internal/service/structs.go:237-264 | Every pod is in exactly one group, that of its parsed annotation, and groups keep the order of the pods. |
| Requests.PodsAlwaysPrintApart | internal/service/structs.go:237-276 | Whatever the annotations are, the pod count of a match is the number of pods whose parsed capabilities match. |
| ExtraContainers.ParseExtraAgentContainerDefinition | internal/service/utils.go:549-627 | The containers of all definitions in order, or none if one lacks a name or an image, has an attribute not of the form key=value, or has a quantity that is refused. |
| ExtraContainers.DefinitionReadExactlyWhen | internal/service/utils.go:558-624 | A definition is read if and only if each attribute has exactly one "=", a name and an image are given, and the quantities are accepted; the last attribute with a key counts. |
| ExtraContainers.ReadExactlyWhenAll | internal/service/utils.go:557-626 | A list is refused if and only if one of its definitions is; otherwise there is one container per definition. |
| ExtraContainers.WriteRead | internal/service/utils.go:549-627 | Reading definitions written in the documented form gives the same containers in the same order. |
| ExtraContainers.DemandCarries | internal/service/structs.go:188-200 | A demand with such a definition is parsed into exactly that capability value. |
| ExtraContainers.ContainersArrive | internal/controller/autoscaledagent_controller.go:400-406 | The whole way, wherever the demand stands in the request, if no later one is about extra containers: parsed, printed into the annotation, parsed again and read, the containers arrive unchanged, and the other demands as they would without it. |
| Scaler.ContainersInPod | internal/controller/autoscaledagent_controller.go:400-406 | So the pod made for a request has the template's containers followed by exactly the containers the request asks for. |
| Convergence.PassStaysInBounds | internal/controller/autoscaledagent_controller.go:132-231 | A pass never takes a template above max(count before, MaxCount, MinCount), deletes at most one pod and never goes below min(count before, target), also when creations fail. |
| Convergence.OnePassServesAllDemands | internal/controller/autoscaledagent_controller.go:187-229 | Without surplus, one complete pass reaches exactly min(jobs, MaxCount) for any order of the demands, and the next changes nothing. |
| Convergence.PassApproachesTarget | internal/controller/autoscaledagent_controller.go:138-229 | One demand, whichever it is: no complete pass increases the distance to min(Max, max(jobs, Min)), and what each of the three branches reaches is stated exactly; afterwards there is still one demand if and only if it is the template's own or MinCount was reached before. |
| Convergence.TwoPassesReachTarget | internal/controller/autoscaledagent_controller.go:168-229 | One demand, whichever it is, from below: two complete passes reach the target if and only if the demand is the template's own, or MinCount was reached before, or no job lacked a pod, or MaxCount leaves no room to overshoot; otherwise the number they reach is stated. |
| Convergence.FillingOvershoots | internal/controller/autoscaledagent_controller.go:168-229 | The input behind the condition: two jobs with another demand and a MinCount of one lead to three pods, because the pod made for MinCount serves neither. |
| Convergence.ExcessShrinksPerDeletion | internal/controller/autoscaledagent_controller.go:138-167 | One demand, whichever it is, from above: after any number of passes the excess is the initial one less the passes that found a pod, and the target is never undershot. |
| Convergence.StableExactlyWhen | internal/controller/autoscaledagent_controller.go:138-229 | Any demands: no complete pass changes the pods if and only if their number is between MinCount and the target and MaxCount is reached or no demand lacks a pod. |
| Convergence.TargetIsStableExactlyWhenOrdered | internal/controller/autoscaledagent_controller.go:138-185 | One demand, whichever it is: a template at its target stays there if and only if MinCount <= MaxCount. |
| Convergence.SurplusOscillates | internal/controller/autoscaledagent_controller.go:187-229 | With a surplus pod for one demand a template at its target can create and delete in turn for ever. |
| Listing.GetPodsWithPhase | internal/controller/autoscaledagent_controller.go:299-325 | The pods of a phase that carry the capabilities annotation. |
| Listing.GetFilteredRunningPods | internal/service/utils.go:365-375 | The pods that are neither marked as terminating nor being deleted. |
| Listing.ListedExactlyWhenSteady | internal/controller/autoscaledagent_controller.go:299-325 | The running pods of one moment and the pending pods of a later one are part of what counted at the first, and miss nothing of what counts at the second if and only if no counted pod began to run in between. |
| Listing.ReflectedCountsNoMore | internal/service/utils.go:365-375 | If every counted pod of the cluster is among those that were seen, no template counts more pods than were seen. |
| Scaler.PodScaler.ListCounted | internal/controller/autoscaledagent_controller.go:123-128 | The list the scaler works on, from two calls between which the cluster changes. |
| Scaler.PodScaler.ScaleTemplate | internal/controller/autoscaledagent_controller.go:138-229 | The three branches on the listed pods and jobs: the effect is one of those allowed for the counts, the pods as seen change by exactly that effect, and no more creations are attempted than MaxCount leaves room for. |
| Scaler.PodScaler.ShrinkTemplate | internal/controller/autoscaledagent_controller.go:138-167 | The chosen pod, and no other, is deleted, by name, if it is still there. |
| Scaler.PodScaler.FillTemplate | internal/controller/autoscaledagent_controller.go:168-185 | At most MinCount - count pods with the template's own capabilities are added; exactly as many if no creation fails. |
| Scaler.PodScaler.MissingAgents | internal/controller/autoscaledagent_controller.go:191-201 | The demands that lack pods, each as often as its jobs exceed its pods, for any order of the map. |
| Scaler.PodScaler.CreateWanted | internal/controller/autoscaledagent_controller.go:203-229 | Creations are drawn from the wanted demands and never exceed the room, which a swallowed exhaustion uses up as well; any other error stops the pass. |
| Scaler.PodScaler.CreateAgents | internal/controller/autoscaledagent_controller.go:327-339 | Agents are added one by one until the first failure. |
| Scaler.PodScaler.CreateAgent | internal/controller/autoscaledagent_controller.go:341-420 | A created pod carries the printed capabilities, the template's annotations and containers, and the extra containers its capabilities ask for. A call that reports an error may have created it all the same. |
| Scaler.AgentPodCarries | internal/controller/autoscaledagent_controller.go:341-420 | A created pod is pending, tells the capabilities it was made for, and has the template's other annotations and its containers. |
| Passes.Reconciler.Reconcile | internal/controller/autoscaledagent_controller.go:123-231 | A whole pass over all templates while the cluster changes between any two calls: the pods that were seen change by allowed effects only, judged by the lists, and no template's turn changes another's; in the end the cluster's counted pods are part of them if no pod began to run between the two lists, and exactly them if nothing changed. If nothing fails every effect is complete; exhausted volumes never end a pass, any other error does. |
| Passes.NewPodKey | internal/controller/autoscaledagent_controller.go:366-367 | A pod created for a demand is counted for that template under that very demand, and for no other template. |
| Passes.VictimKey | internal/controller/autoscaledagent_controller.go:153-155 | The pod that is deleted counted for its own template under the key it was found by, and for no other template. |
| Uncounted.GoodKeyExactlyWhenClean | internal/controller/autoscaledagent_controller.go:366-367 | Without empty values, a pod made for a demand is counted under that demand again if and only if no key of it holds "=" or ";" and no value holds ";". |
| Uncounted.UncountedDemandNeverEnds | internal/controller/autoscaledagent_controller.go:187-229 | If the printed and parsed demand does not match the template any more, its pods are never counted: however many there are, every complete pass creates another one, whatever MaxCount is. |
| Uncounted.PairAfterContainers | internal/service/utils.go:419-434 | Requests that lead there: any list of extra containers followed by ";" and a further pair, for a template without capabilities; the pods are made with exactly those containers. |
| Runs.NeverAboveMaxCount | internal/controller/autoscaledagent_controller.go:123-231 | Over any run of passes, with changing jobs, failing calls, lost replies and pods that start, end and vanish at any moment, a template never has more pods than both at the start and MaxCount, as long as no pod begins to run between the two lists of a pass. |
| Runs.Operate | internal/controller/autoscaledagent_controller.go:123-231 | The loop itself, with any requests and with the cluster changing before and during each pass: if the two lists of every pass miss nothing, its states are such a run, so no template ends with more pods than both what it began with and MaxCount. |
| Runs.StartingPodIsMissed | internal/controller/autoscaledagent_controller.go:299-325 | That condition is needed: with MaxCount one and one job, a pod that begins to run between the two lists is in neither, and the pass creates a second one. |
| Runs.CountInPass | internal/controller/autoscaledagent_controller.go:132-231 | The two-sided bound of one pass, on the pods of the cluster. |
| Runs.OnePassSuffices | internal/controller/autoscaledagent_controller.go:187-229 | On the cluster's pods and the platform's requests: without surplus, one pass without failures gives exactly min(matching requests, MaxCount) pods, and another one changes nothing. |
| Runs.TwoPassesSufficeExactlyWhen | internal/controller/autoscaledagent_controller.go:168-229 | One demand from below, on the cluster's pods: two passes give min(Max, max(matching requests, Min)) pods if and only if the demand is the template's own, or MinCount was reached before, or no job lacked a pod, or MaxCount leaves no room to overshoot. |
| Runs.ExcessShrinks | internal/controller/autoscaledagent_controller.go:138-167 | One demand, whichever it is, from above: after any number of undisturbed passes the excess is the initial one less the passes that deleted a pod, and the target is never undershot. |
| Idle.IdleWatch.Inspect | internal/controller/autoscaledagent_controller.go:599-671 | One pod: the decision and the new stamp follow from the phase, the result of the command, the stamp, the clock and how the update ends. A scheduled pod is chosen only if this very command printed 0 or failed with one of the two messages; any other result leaves the stamp alone. |
| Idle.IdleWatch.GetTerminateablePod | internal/controller/autoscaledagent_controller.go:596-675 | The first pod found in any order of the lists, by the last inspection of this call: unscheduled, or the command printed 0, or it failed with one of the two messages. If none is chosen, every listed pod was inspected in this call and passed over. |
| Idle.StoppedExactlyWhen | internal/controller/autoscaledagent_controller.go:606-669 | A scheduled pod counts as stopped if and only if the command failed with a message that contains "container not found" or "cannot exec in a stopped container"; a pod counts as unscheduled if and only if it is pending without statuses. |
| Idle.IdleTooLongExactlyWhen | internal/controller/autoscaledagent_controller.go:617-649 | Over any history of inspections: the pod is terminated for idleness if and only if the command says it is idle now, its annotation is readable, and some recorded idle detection, with no recorded worker since, lies in a second at least the minimum idle period back - so it was seen idle more than that period less one second before. |
| Idle.StampWasIdle | internal/controller/autoscaledagent_controller.go:621-630 | A stamp on a pod is always the second of a recorded idle detection with no recorded worker since. |
| Idle.IdleIsStamped | internal/controller/autoscaledagent_controller.go:621-661 | As long as a recorded idle detection is not followed by a recorded worker, the pod carries a stamp no later than it. |
| Sidecars.GetContainerStatusIndex | internal/service/utils.go:693-702 | The first status with the container's name, or none. |
| Sidecars.GetContainerSpecIndex | internal/service/utils.go:707-716 | The first container with the status's name, or none. |
| Sidecars.IndicesAreInverse | internal/service/utils.go:689-716 | When statuses and containers have the same distinct names, the two look-ups are inverse to each other in both directions. |
| Sidecars.AgentPods.TerminateFinishedPod | internal/controller/autoscaledagent_controller.go:727-779 | Exactly the running containers other than the agent's get their status image with the suffix, then the annotation is set; a failed call leaves the pod as it was, or with the images only. |
| Sidecars.AgentPods.TerminateFinishedAgentPods | internal/controller/autoscaledagent_controller.go:719-783 | The pass settles the pods in order up to the first failed call; a pod without a status for its agent fails the pass. |
| Sidecars.ChangedExactlyWhenFinished | internal/controller/autoscaledagent_controller.go:727-752 | A pass changes a pod if and only if it runs, is annotated and not marked yet, the status of its agent has ended and that of another container runs. |
| Sidecars.OtherImageIsNonExistent | internal/controller/autoscaledagent_controller.go:757-766 | Then each other running container gets its running image with the suffix, which is another image, and the rest stay as they are. |
| Sidecars.StoppedForGood | internal/service/utils.go:365-375 | A stopped pod keeps its agent container; whatever happens to its statuses and phase, later passes leave it alone and the scaler no longer counts it. |
| Sidecars.NextPassCompletes | internal/controller/autoscaledagent_controller.go:748-772 | A pod whose annotation could not be set is completed by the next pass, without changing the images again. |
| Retention.PodRetention.SortedByStart | internal/controller/autoscaledagent_controller.go:689-691 | The terminated pods by start time, ties in any order. |
| Retention.PodRetention.DeleteTerminatedAgentPods | internal/controller/autoscaledagent_controller.go:679-706 | Exactly min(n, keep) annotated pods that succeeded or failed stay if no call fails, never fewer, so none with keep 0; no deleted pod was started after a kept one; every other pod is untouched. |
| Retention.RetainedIsUnique | internal/controller/autoscaledagent_controller.go:689-696 | Without equal start times the unstable sort cannot make a difference. |
| Retention.RetainedIsStable | internal/controller/autoscaledagent_controller.go:688-702 | A second pass deletes nothing. |
| DummyAgents.Housekeeper.CreateOrUpdateDummyAgents | internal/service/utils.go:129-205 | Whatever was cached before, the returned names are those of the current resource under a separating digest; if the hash separates capabilities, templates get equal names exactly if their capabilities are equal, and after a registration as many names are registered as there are different capabilities. A failed call leaves the cache alone. |
| DummyAgents.NameTellsApart | internal/service/utils.go:223-228 | With a hash that separates capabilities, names differ if and only if capabilities do, and exactly the template without capabilities gets the bare prefix. |
| DummyAgents.NamesDifferExactlyWhenInputsDo | internal/service/utils.go:346-363 | With the hash that is used, a sum over each key followed by its value, names of templates with capabilities are equal if and only if what is summed is equal, as long as the sums of different strings differ. |
| DummyAgents.SplitDifferently | internal/service/utils.go:346-363 | So whatever the sum is, two templates that split the same characters differently into key and value share one dummy agent. |
| DummyAgents.Housekeeper.DeleteDeadDummyAgents | internal/service/utils.go:236-312 | Everything deleted was offline, not to be kept, and old enough by its prefix when it was deleted; a completed collection misses nothing that was due when it began; successful collections are at least the interval apart. If no call is refused it fails only over an agent that falls under both prefix rules, and it never completes if there was one when it began. |
| DummyAgents.DoomedExactlyWhenDue | internal/service/utils.go:280-305 | An agent is due if and only if it is offline, not to be kept, and older than the age for dummy agents or for the resource's agents, by the prefix of its name. |
| DummyAgents.Housekeeper.CollectAgent | internal/service/utils.go:281-305 | One agent: both deletion rules in order; if no call is refused it fails exactly over an agent that falls under both. |
| DummyAgents.Housekeeper.Housekeep | internal/controller/autoscaledagent_controller.go:105-114 | The two together keep every agent the resource needs registered, over any passes, changes of the resource and failures, as long as nobody else deletes them. |
| DummyAgents.SurvivesOthersWhileTolerated | internal/service/utils.go:281-305 | A dummy agent survives a completed collection for another resource if, until its end, that resource needs the same name, or the agent is online, or too young for every rule that applies to its name; and only if that was so when it began. |
| DummyAgents.ResourceNamedLikeDummies | internal/service/utils.go:287-305 | For a resource named "dummy" every superfluous old dummy agent falls under both rules, so its collections fail over them. |
| FakePlatform.Server.AddJob | fake_platform_server/server.go:124-155 | Refused for an ID in use or another pool; otherwise the job is in the table, pending. |
| FakePlatform.AddMeans | fake_platform_server/server.go:124-155 | A job is appended, pending, if and only if its ID is not in use and the pool is the platform's own. |
| FakePlatform.Server.CancelJob | fake_platform_server/server.go:158-166 | Removes exactly the job with the ID. |
| FakePlatform.CancelMeans | fake_platform_server/server.go:158-166 | Exactly the first job with the ID leaves the table. |
| FakePlatform.Server.SaveJob | fake_platform_server/server.go:178-191 | Replaces the job with the same ID, or appends it. |
| FakePlatform.Server.HandleAssignJob | fake_platform_server/server.go:215-286 | Accepted exactly for a pending job and a known agent whose capabilities decode; then the job is in progress and the request is logged. |
| FakePlatform.AssignMeans | fake_platform_server/server.go:229-286 | The order of the refusals - unknown job, not pending, capabilities that do not decode, unknown agent - each of which changes nothing; otherwise this job and no other is in progress. |
| FakePlatform.Server.HandleFinishJob | fake_platform_server/server.go:290-327 | The job with the ID is finished and the request logged, whoever asks. |
| FakePlatform.FinishMeans | fake_platform_server/server.go:304-327 | A job that is in the table is finished, whatever its state and whoever asks, and no other one. |
| FakePlatform.NoJobIsHeldTwice | fake_agent/main.go:93-127 | With every request and every test call in one step, and however these interleave, job IDs stay unique and no two agents hold the same job. |
| FakePlatform.RunProgresses | fake_platform_server/server.go:178-327 | In such runs, while a job is in the table its state never moves backwards. |
| FakePlatform.AssignedAtMostOnce | fake_platform_server/server.go:226-286 | In such runs, between the addition of a job and its removal at most one AssignJob is logged for its ID, and none once it is no longer pending. |
| FakePlatform.FinishesOwnJobExactlyWhenNotRemoved | fake_platform_server/server.go:301-327 | From any state such a run reaches in which an agent holds a job of the table, through any further steps of the others: the job that has the ID in the end - the one the agent will finish - was granted to it if and only if the ID was never removed in between. |
| FakePlatform.StaleAgentFinishesNewJob | fake_platform_server/server.go:301-327 | The run behind it: an agent whose job was cancelled finishes the next job with that ID, though nobody was assigned to it. |
| Races.IdsUniqueExactlyWhenStoresLand | fake_platform_server/server.go:124-191 | With the handlers under the lock and the tests without it, so that a test call may fall between a handler's look-up and its store: job IDs are unique in every state if and only if every copy is stored where its ID still is, or its ID is nowhere by then, or the store fails; then no two agents hold a job and no job is assigned twice. |
| Races.UndisturbedIsAtomic | fake_platform_server/server.go:178-327 | While no test cancels a job or resets the platform as a request is handled, every history does what its one-step form does, and all its stores land - additions do no harm. |
| Races.UndisturbedAssignsOnce | fake_platform_server/server.go:226-286 | So in such histories job states never move backwards and at most one AssignJob is logged for a job while it is in the table. |
| Races.CancellationCanDoubleAJob | fake_platform_server/server.go:158-191 | The history behind the condition: a cancellation between look-up and store leaves one ID twice in the table, a second agent gets the same job, and a job that nobody cancelled is lost. |

## Left out

- HTTP requests, JSON, authentication and the look-up of the pool: the model is given the decoded requests and agents.
- Running a command in a pod: an oracle that returns any output or any error.
- Random names, quantity parsing, hashing and digests: any name, a predicate, arbitrary functions (see above).
- Environment variables, labels, restart policy, the volume entries of a pod, storage class and size of a claim, and owner
  references: they are written and never read again by the logic modelled here.
- Logging, PrintPendingJobsIfChanged and debug switches: no effect on the state.
- The order of the parts of a reconcile pass: each part is modelled on its own; that a part which fails ends the pass is
  only modelled inside the scaling loop.
- Lease.Step: claims are not deleted by users, and no one but the operator writes promises; other writers only touch claims.
- Scaler.PodScaler.ListCounted: a list call that fails ends the pass before anything is done, so it is not modelled.
- Scaler.PodScaler.CreateAgent: whether the allocation of claims succeeds is an arbitrary outcome here; Operator models how
  it comes about.
- Scaler.PodScaler.ChoosePod: which matching pod may be terminated is an arbitrary choice here; Idle models how it is made.
- Scaler.PodScaler.Delete: a deleted pod is marked as being deleted and counts no longer; its disappearance is an event of
  the environment.
- Runs.TwoPassesSufficeExactlyWhen: no general convergence is claimed for several demands with surplus pods, because it is false
  (Convergence.SurplusOscillates); Convergence.StableExactlyWhen says when a template has come to rest.
- Idle.IdleWatch.Inspect: nothing but the operator writes the idle stamp, except that a pod may appear with an
  unreadable one; what happens between the check and the end of the pod is outside the code.
- DummyAgents.Housekeeper.Register: the status and the capabilities of agents that are already registered are not modelled.
- FakePlatform.Server.AddJob: durations, delays and demands of jobs are not modelled.
- Races.Do: a look-up, a store and a call by a test are one step each; torn reads and writes of the Go slices are not modelled,
  nor what a request reads of the list of agents while the platform is reset.
- FakePlatform.NoJobIsHeldTwice: an agent is the sequence of its attempts, its completion or its giving up; its timers and
  its worker process are not modelled.
- Agent IDs of the fake platform are allocated as the code does, but are not unique after a deletion, so nothing is claimed.
- Helm charts, manifests, scripts and the repository's own tests: nothing to prove.
