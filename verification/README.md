# A verified model of the Plus operator

A `Plus` object describes several versions ("apps") of one program, an optional gateway and an optional traffic
policy. The operator turns it into one Deployment and one autoscaler per app, one shared Service, one Istio
DestinationRule, and one or two Istio VirtualServices, keeps them in line, and holds the object back from deletion
with a finalizer until its own step has run. This project models that operator in Dafny and proves what it
guarantees. `dafny verify dfyconfig.toml` checks everything.

## How the model is built

* **Specification functions.** `PlusTypes`, `Routes`, `Children`, `Weights` and `Admission` say what is generated, from
  the Plus alone. The classes `PlusInstance`, `Deployment`, `Service`, `DestinationRule`, `VirtualService`,
  `AutoScaling` and `PlusReconciler` are the operator's own objects: their methods loop, append, fill in
  defaults and call the server as the Go methods do, and each is proved equal to its specification function.
* **API server** (`Api`). A map from (kind, namespace, name) to a slot with a version. Each request is atomic. Each call
  has a fate: served, refused, or served with the answer lost. An update that names a version is conditional.
  Writing what is stored already changes nothing. Status is a subresource. A deleting Plus without finalizers is gone.
* **Two views of a reconcile** (`Reconciling`). `Reconcile` is the whole of it; `Act` makes one API call, so that other
  actors can step in between. `StepsAreReconcile` proves both views equal, and `PlusReconciler.Reconcile` is proved
  equal to the first.
* **Routing semantics** (`FirstMatch`, `Colours`). Routes in order, alternatives of a route in order, exact headers, URI
  prefix, caller's namespace and labels; an empty alternative list always holds; a rewrite replaces the matched
  prefix. Header names are taken as normalised already (section 5.1 of RFC 9110).
* **What is generated, in the source's own literals** (`Contents`, `StatusText`). Hosts, ports, labels, header and
  annotation names, defaults and printed texts are stated of settled objects and routed requests directly, not by way
  of the functions that generate them.

Slices and maps that are empty but not nil are stored as nil, so `reflect.DeepEqual` never finds them equal to what
is stored; `DestinationRuleRoundTrips`, `GatewayRoundTrips` and `MeshRoundTrips` say when that happens. Fixpoints are
therefore stated on stored contents and versions, never on a count of issued writes.

## What the proofs found

* The weight check adds int32 values: three positive weights with a true total of 2^32 + 100 are accepted
  (`AcceptedWeightsMayWrap`). Where the true total fits 32 bits the check is exact.
* The operator comes to rest if and only if the apps can agree on the objects they share (`RunRestsIff`, `Compatible`):
  all apps on port and protocol, since they write one Service in turn; and, since nothing checks that versions are
  distinct, apps of one version on their Deployment and on their autoscaler. Otherwise they overwrite each other in
  every reconcile.
* A replica count that is within an app's bounds is sure to stay there if and only if all the apps of that version
  start within those bounds or not at all (`StaysInRangeIff`, `SharesBounds`). Admission does not see to that: two apps
  of version "blue" with bounds 2..3 and 5..6 are admitted, each takes the count out of the other's bounds in every
  reconcile, and the operator never rests (`TwoBluesAdmitted`, `TwoBluesTakeTurns`, `TwoBluesNeverRest`).
* A Deployment update carries no version. A count that an autoscaler writes between the operator's read and its update
  survives exactly when the read failed, no update is due, the update is turned away, or it is the count that was read
  (`CountSurvivesIff`); `AutoscalerChoiceUndone` is a run that loses one.
* A failure at a child clears the success flag, exactly then (`ReportedSuccessIff`), but is not an error of the
  reconcile: it ends well all the same, so nothing asks the work queue for another one (`ResultIff`).
* Resources are written only when the printed CPU or memory changes (`ResourcesAppliedIff`). A change to any other
  resource alone is never made, over any number of reconciles (`CarriesOverForever`), and the operator counts as
  settled without it: an app that goes from one GPU to eight keeps one (`EightGpusNeverCome`).
* A Plus that is deleted while a reconcile is at work goes on being applied to the end of that reconcile
  (`WorkOnDeletingIff`, `DeletionDoesNotStopWork`), but never once it is gone (`ChildWrittenOnlyWhileRegistered`).
  `DeletingPlusIsDeployed` is a run in which its Deployment is created after the deletion.
* Plus "a" with version "b-c" and Plus "a-b" with version "c" share a Deployment and fight over it (`NamesMayCollide`,
  `SharedDeploymentIsFoughtOver`).
* When an app sets a restart mark, a different template annotation under that key wins when the Deployment is created
  and loses from the next reconcile on (`CreatedAgreesIff`, `DeploymentSettlesIff`).

## Model

| member | source | states |
|---|---|---|
| `FirstMatch.GatewayMeaning` | api/v1/own/virtualservice.go:111-142 | For every spec and request, first-match evaluation of the gateway table is the direct rule: nothing outside the prefix; else the first app asked for by a custom header map or by VERSION gets everything; else the weighted default; always with the path below the prefix. What is served is decided by the name and the gateway's path prefix alone |
| `FirstMatch.ServedUnderName` | api/v1/plus_types.go:155-163 | Without a path prefix exactly the paths that begin with "/" and the name of the Plus are served, and the app sees what follows |
| `FirstMatch.ServedEverywhere` | api/v1/plus_types.go:165-167 | With an empty one every path is served as it comes |
| `FirstMatch.ServedUnderPrefix` | api/v1/plus_types.go:169-173 | With any other, exactly the paths that begin with it, a slash being put before it if it has none |
| `FirstMatch.GatewayPicksFirst` | api/v1/own/virtualservice.go:206-281 | The first app in spec order that the request asks for receives all of it, with the prefix stripped |
| `FirstMatch.MatchPairsHoldIff` | api/v1/own/virtualservice.go:231-278 | A route's alternatives hold exactly when the path has the prefix and some header set is satisfied |
| `FirstMatch.AlternativesInOrder` | api/v1/own/virtualservice.go:220-278 | A route tries the app's header maps in their order, and the VERSION header after them |
| `FirstMatch.MatchedPrefix` | api/v1/own/virtualservice.go:231-278 | Because the slash form of every header set comes directly before the plain one, the matched prefix includes the slash whenever the path has one |
| `FirstMatch.RewriteDropsPrefix` | api/v1/own/virtualservice.go:307-315 | Rewriting to "/" turns prefix + rest into rest when rest starts with "/", and into "/" + rest otherwise |
| `FirstMatch.GatewayRouteMeaning` | api/v1/own/virtualservice.go:114-142 | When each route of the table holds, what path it passes on, and where it sends the request |
| `PlusTypes.PrefixPathIsEmptyOrRooted` | api/v1/plus_types.go:155-174 | The path prefix is empty or starts with "/"; it is the name of the Plus when the gateway sets none, and otherwise what it sets |
| `VirtualServices.VirtualService.GenerateMatch` | api/v1/own/virtualservice.go:206-281 | The append loop builds the specified alternatives, custom header maps first and VERSION last, or the mesh form, which is restricted exactly for blue and green |
| `VirtualServices.VirtualService.GenerateDefaultRoute` | api/v1/own/virtualservice.go:333-349 | One destination per app in spec order with the gateway's weight, zero when there is none |
| `VirtualServices.VirtualService.GenerateCorsPolicy` | api/v1/own/virtualservice.go:387-418 | Returns the policy with defaults and leaves the instance with exactly those defaults filled in |
| `VirtualServices.VirtualService.GenerateGateway` | api/v1/own/virtualservice.go:111-167 | The table is the one for the instance as it was at the start, although the instance changes during the loop, and serves exactly the paths the gateway's fields ask for |
| `VirtualServices.VirtualService.GenerateMesh` | api/v1/own/virtualservice.go:111-167 | The mesh table, restricted for the blue and green apps only, with the instance unchanged |
| `VirtualServices.VirtualService.Apply` | api/v1/own/virtualservice.go:38-101 | Gateway object, then mesh object, exactly as the stage does it, whatever becomes of the calls |
| `Routes.GatewayGenerationRepeatable` | api/v1/own/virtualservice.go:387-408 | A second generation from the instance with filled-in CORS lists yields an equal VirtualService, and all gateway routes carry one CORS policy |
| `Routes.MeshGenerationRepeatable` | api/v1/own/virtualservice.go:71-74 | The mesh VirtualService does not depend on the filled-in CORS lists |
| `Colours.GatewayDestinationsResolve` | api/v1/own/virtualservice.go:317-349 | Every destination of the gateway VirtualService names a subset of the generated DestinationRule on its host |
| `Colours.MeshDestinationsResolve` | api/v1/own/virtualservice.go:317-330 | The same for the mesh VirtualService |
| `Colours.SubsetSelectsOwnPodsIff` | api/v1/own/deployment.go:151-158 | A subset, and the Deployment's selector, selects its app's pods if and only if template labels repeat the selector keys they mention |
| `Colours.SubsetsDisjoint` | api/v1/own/destinationrule.go:79-87 | Subsets of different versions never select the same pod |
| `Colours.ServiceCoversPodsIff` | api/v1/own/service.go:87-92 | With agreeing template labels, the pods carry the name of their Plus, and the Service selects them if and only if the Plus carries no other "version" label |
| `Colours.OtherPodsNotSelected` | api/v1/plus_types.go:98-105 | Neither the Service nor any subset of a Plus selects the pods of a Plus of another name, whose template does not claim otherwise |
| `Colours.RequestsStayWithPlus` | api/v1/plus_types.go:98-105 | So no request to one Plus, however routed, reaches a pod of another |
| `Colours.MeshRouteTakes` | api/v1/own/virtualservice.go:209-217 | A blue or green app's mesh route holds exactly for callers of the namespace with its own version, any other app's for every caller |
| `Colours.MeshMeaning` | api/v1/own/virtualservice.go:209-217 | A mesh request goes, path unchanged, wholly to the first app that takes its caller |
| `Colours.MeshHop` | api/v1/own/virtualservice.go:209-217 | Any pod a blue or green caller reaches has its colour if and only if the callee has an app of that colour with no app outside blue and green before it |
| `Colours.MeshHopLands` | api/v1/own/virtualservice.go:206-217 | Such a hop reaches the colour's own pods, given agreeing labels |
| `Colours.GatewayHop` | api/v1/own/virtualservice.go:253-278 | A request entering with VERSION set to a version, and no earlier app asked for, lands on pods of that version |
| `Colours.GatewayHopLands` | api/v1/own/virtualservice.go:253-278 | Such a request does reach the version's own pods, given agreeing labels |
| `Colours.ColourSurvives` | api/v1/own/virtualservice.go:206-281 | Along call chains of any length, a request that enters with blue or green is on pods of that colour at every hop whose callees so far share the namespace and keep the colour |
| `Colours.ColourSurvivesOnlyIf` | api/v1/own/virtualservice.go:209-217 | A hop that stays on its colour was to a Plus that keeps the colour |
| `Colours.ChainGrows` | api/v1/own/virtualservice.go:209-217 | A chain on its colour continues, on its colour, into any Plus of the namespace that keeps it, so chains of every length exist |
| `Weights.WeightsAddUp` | api/v1/plus_gateway_types.go:36-48 | The wrapping loop, taking keys in any order, accepts exactly no weights or a true sum congruent to 100 mod 2^32 |
| `Weights.SumWithout` | api/v1/plus_gateway_types.go:40-43 | The sum does not depend on the iteration order |
| `Weights.AcceptedWeightsMayWrap` | api/v1/plus_gateway_types.go:40-48 | A concrete accepted weight map whose true sum is not 100 |
| `Weights.AcceptedExactlyWithoutWrap` | api/v1/plus_gateway_types.go:45-48 | Where the true sum lies in [0, 2^32), it is accepted if and only if it is 100 |
| `Weights.RouteTotalPlusStray` | api/v1/own/virtualservice.go:333-349 | With distinct versions the default route carries all the weight but what is keyed outside the apps |
| `Weights.DefaultRouteTotalsHundred` | api/v1/own/virtualservice.go:333-349 | Absent wrap-around, an accepted gateway's default route totals 100 if and only if the stray weights sum to zero |
| `TrafficSettings.DefaultRouteSharesHundred` | api/v1/own/virtualservice.go:333-349 | The same said of the generated destinations: their weights total 100 if and only if the stray weights sum to zero |
| `Admission.DefaultIdempotent` | api/v1/plus_webhook.go:42-57 | Defaulting twice is defaulting once |
| `Admission.DefaultFills` | api/v1/plus_webhook.go:42-57 | Defaulting fills in a zero upper bound with the lower one, and an ejection percentage that is not positive with ten, and changes nothing else |
| `Admission.DefaultKeepsAcceptance` | api/v1/plus_webhook.go:42-70 | Defaulting never turns an accepted Plus into a rejected one |
| `Admission.AdmittedIff` | api/v1/plus_types.go:176-201 | What the webhooks together admit, as one condition on the submitted name, apps, durations, retries, error counts, hosts and weights |
| `Admission.AdmittedName` | api/v1/plus_types.go:176-181 | Admitted names have at most 63 lower-case letters, digits and hyphens, and no hyphen at an end |
| `Admission.AdmissionClosed` | api/v1/plus_webhook.go:65-80 | An admitted object is admitted again, unchanged, with any finalizers, status and deletion mark, so the operator's own writes and deletion are never held up |
| `Admission.AdmittedDurationsPresent` | api/v1/plus_policy.go:52-117 | For admitted objects no retry, outlier or delay duration is nil, and the timeout is nil exactly when it is zero |
| `TrafficSettings.AdmittedRoutesCarryPolicy` | api/v1/own/virtualservice.go:352-385 | Every route of both tables of an admitted Plus carries the policy's retries, timeout, delay and abort with their percentages, each exactly when the policy has it, with durations that last what their text says |
| `TrafficSettings.AdmittedRuleCarriesPolicy` | api/v1/own/destinationrule.go:118-145 | The DestinationRule carries the request limit twice and outlier detection exactly when the policy has it, with a positive ejection percentage and the policy's least health |
| `Admission.ToDuration` | api/v1/plus_policy.go:60-64 | Seconds and nanoseconds add up to the duration, with equal signs |
| `Admission.AdmittedBounds` | api/v1/plus_app_types.go:49-65 | For admitted objects the replica bounds are ordered and not zero, and no version is empty |
| `PlusInstances.PlusInstance.Default` | api/v1/plus_webhook.go:42-57 | The in-place loop computes the specified defaults and changes nothing else |
| `PlusInstances.PlusInstance.GenerateAppTemplateLabels` | api/v1/plus_types.go:117-124 | Plus labels, then the Plus's name under "plus" and the version under "version", then template labels, later ones winning, in any iteration order |
| `PlusInstances.PlusInstance.GenerateStatusDesc` | api/v1/plus_types.go:126-153 | Accumulating and trimming yields a single-space join of the apps' entries in spec order; only the description changes |
| `Text.TrimmedIsJoined` | api/v1/plus_types.go:142-150 | Parts each followed by a separator, trimmed once, are the parts joined |
| `Text.ItoaReads` | api/v1/plus_types.go:130-131 | A printed number is digits that read as that number, after a minus sign if it is negative |
| `Text.LastPieceOf` | api/v1/plus_types.go:132-135 | What is taken of the image is what follows its last colon |
| `StatusText.ReplicasOfOne` | api/v1/plus_types.go:130-131 | An app is shown as version:min-max(available) |
| `StatusText.ImageOfOne` | api/v1/plus_types.go:132-135 | And as version:tag |
| `StatusText.WeightOfOne` | api/v1/plus_types.go:136-140 | And as version:weight, exactly when the gateway gives that version a weight |
| `StatusText.ReplicasAreListed` | api/v1/plus_types.go:126-144 | Each further app is added after a space |
| `StatusText.ImagesAreListed` | api/v1/plus_types.go:126-147 | So is its tag |
| `StatusText.WeightsAreListed` | api/v1/plus_types.go:136-150 | And its weight, if it has one, without a stray space otherwise |
| `StatusText.PrefixIsShown` | api/v1/plus_types.go:152-163 | The shown prefix is that of the gateway, and empty without one |
| `PlusTypes.AppImageReads` | api/v1/plus_types.go:94-96 | The image without "_" and the version where that occurs once, and as it is where it does not |
| `PlusTypes.AppNameInjective` | api/v1/plus_types.go:90-92 | Within one Plus, app names are equal exactly when versions are |
| `Deployments.Deployment.BuildAnnotations` | api/v1/own/deployment.go:344-368 | Restart mark, template annotations, proxy resources that are not zero, later ones winning |
| `Deployments.Deployment.Reconcile` | api/v1/own/deployment.go:65-92 | The spec to store and whether it equals the found one: in-range replicas, restart mark and equal CPU and memory carried over; its requests and limits of CPU and memory print as wanted |
| `Deployments.Deployment.Apply` | api/v1/own/deployment.go:38-105 | The loop is the Deployment stage, failing and lost calls included |
| `Deployments.Deployment.UpdateStatus` | api/v1/own/deployment.go:107-122 | The loop is the status stage: it stops quietly at the first Deployment that cannot be read |
| `Services.Service.Apply` | api/v1/own/service.go:37-70 | The loop is the Service stage: it ends after a create, and otherwise every app writes in turn |
| `DestinationRules.DestinationRule.Apply` | api/v1/own/destinationrule.go:36-69 | Read, then create or conditionally update, exactly as the stage does it |
| `DestinationRules.DestinationRule.Generate` | api/v1/own/destinationrule.go:79-110 | One subset per app in spec order, each selecting by the name of the Plus, with the policy's pool and outlier settings |
| `Autoscalers.AutoScaling.Apply` | api/v1/own/autoscaler.go:34-78 | The loop is the autoscaler stage: it ends at the first create and at the first keda app |
| `Finalizers.ContainsString` | controllers/func.go:3-10 | Found if and only if the list holds the string |
| `Finalizers.RemoveString` | controllers/func.go:12-20 | The list without the string |
| `Finalizers.Without` | controllers/func.go:12-20 | No occurrence is left, and every other element keeps its multiplicity |
| `Finalizers.WithoutConcat` | controllers/func.go:12-20 | Removing acts on each part of a list separately, so the others keep their order |
| `Reconcilers.PlusReconciler.Finalizer` | controllers/plus_controller.go:149-190 | Registers the finalizer on a live object or removes it from a deleting one, with a conditional update, and says whether the reconcile ends |
| `Reconcilers.PlusReconciler.ApplyResources` | controllers/plus_controller.go:107-126 | All stages run in order, success stays as it was if and only if none of them fails, and the CORS defaults filled in on the way do not matter |
| `Reconcilers.PlusReconciler.WriteStatus` | controllers/plus_controller.go:128-142 | The status is written, conditionally, exactly when it differs from the one fetched; a conflict requeues |
| `Reconcilers.PlusReconciler.Reconcile` | controllers/plus_controller.go:64-147 | The imperative reconciler does to the store, call for call, what the specification `Reconciling.Reconcile` says, for all fates, and a reconcile of a live Plus that ends well reports success exactly as in ReportedSuccessIff |
| `Reconciling.StepsAreReconcile` | controllers/plus_controller.go:64-147 | The call-by-call machine, run on its own, has the same effect and result as the whole reconcile |
| `Reconciling.StagesSucceedIff` | controllers/plus_controller.go:113-126 | After the stages the success flag is set if and only if it was before and no stage ended with an error |
| `Reporting.TaskFailsIff` | controllers/plus_controller.go:113-126 | A task fails if and only if one of its calls is not answered; reading a status never does |
| `Reporting.SuccessIff` | controllers/plus_controller.go:104-126 | After the six stages the success flag is kept if and only if every call other than those that read a status was answered |
| `Reporting.ReportedSuccessIff` | controllers/plus_controller.go:64-147 | For every fate of every call: a reconcile of a live Plus that ends well leaves success in the stored status if and only if all its calls on children but the status readings were answered |
| `Reporting.ResultIff` | controllers/plus_controller.go:79-147 | It ends with an error if the fetch or the registration is not answered, and otherwise well or as the writing of the status ends; no failure at a child is an error of the reconcile |
| `Reporting.StatusWrittenIff` | controllers/plus_controller.go:128-129 | The status is written if and only if it differs from the one fetched, or no available count has been read |
| `Reporting.AbsentResult` | controllers/plus_controller.go:81-92 | A Plus that is not there ends the reconcile well after one call |
| `Reporting.RequeueIff` | controllers/plus_controller.go:129-137 | Writing the status asks for another reconcile if and only if it is answered and the Plus has been written since it was read |
| `Reporting.RegisteredReads` | controllers/plus_controller.go:153-165 | Registration appends the operator's finalizer once, and keeps the others |
| `Children.DecidedWriteSucceeds` | api/v1/own/service.go:49-66 | A write that directly follows its read is never turned away by the server |
| `Children.StaleWriteRefused` | api/v1/own/service.go:49-66 | A write decided on a reading that is out of date is turned away and changes nothing, except those to Deployments and the removal of autoscalers |
| `Children.CalmTask` | api/v1/own/service.go:44-66 | Without faults a task puts its effect on its own slot and nowhere else, and ends the stage exactly where the source returns |
| `Children.FillKeepsStage` | api/v1/own/virtualservice.go:398-408 | Filled-in CORS defaults change no later task |
| `CalmStages.StageAt` | api/v1/own/deployment.go:38-105 | A task whose key is its own and that no earlier return cuts off has its effect, and no other task disturbs it |
| `CalmStages.StageFrame` | api/v1/own/deployment.go:38-105 | A stage touches the keys of its tasks only |
| `CalmStages.ServiceFold` | api/v1/own/service.go:37-70 | On an existing Service, Apply ends with the last app's ports, on a missing one with the first app's; on an existing one nothing is written if and only if what is stored is what every app wants |
| `CalmStages.PortsEqualIff` | api/v1/own/service.go:117-126 | The generated ports are equal exactly when port and protocol are |
| `CalmStages.MixedPortsNeverSettle` | api/v1/own/service.go:37-70 | Apps that disagree on the port rewrite the Service in every Apply |
| `CalmStages.UniformServiceSettles` | api/v1/own/service.go:37-70 | With equal ports one Apply settles the Service |
| `CalmStages.AutoscalerStage` | api/v1/own/autoscaler.go:34-78 | With apps of one version agreeing on their autoscaler, as those with versions of their own do: one Apply creates exactly one missing autoscaler while there is one, and with none missing settles all before the first keda app |
| `CalmStages.AutoscalersCountDown` | api/v1/own/autoscaler.go:34-78 | Under the same condition: with m autoscalers missing, k Applies leave max(0, m - k), and after m + 1 all match |
| `CalmStages.KedaAppsUntouched` | api/v1/own/autoscaler.go:88-91 | From the first keda app on no autoscaler is ever touched whose version no app before it shares |
| `Children.KedaCut` | api/v1/own/autoscaler.go:41-43 | The index of the first keda app |
| `Settling.DeploymentSettledIff` | api/v1/own/deployment.go:50-101 | A Deployment is left alone exactly when it is absent and unwanted, or equals the generated one but for an in-range count, a retained restart mark, and resources whose four printed quantities of CPU and memory are the app's, whatever its other resources are |
| `Settling.PrintedResourcesApplied` | api/v1/own/deployment.go:76-90 | After an Apply the requests and limits of CPU and memory print as the app's, whatever was stored |
| `Settling.ResourcesKeptIff` | api/v1/own/deployment.go:76-90 | The stored resources are kept whole if and only if those four printed so already |
| `Settling.CreatedAgreesIff` | api/v1/own/deployment.go:344-349 | A created Deployment matches if and only if no template annotation collides with a set restart mark |
| `Settling.DeploymentSettlesIff` | api/v1/own/deployment.go:50-101 | One Apply settles a Deployment exactly when it does not have to create it against such a collision |
| `Settling.DeploymentSettlesInTwo` | api/v1/own/deployment.go:50-101 | Two Applies always do |
| `Settling.ApplyPreserves` | api/v1/own/deployment.go:65-74 | Apply never changes an in-range count, the available replicas, or a stored mark when the app sets none |
| `Settling.OtherResourcesNeverApplied` | api/v1/own/deployment.go:79-90 | While CPU and memory stay equal the stored resources are kept whole |
| `Settling.ResourcesAppliedIff` | api/v1/own/deployment.go:76-90 | After an Apply the stored resources are the app's if and only if they were before or one of the four printed quantities of CPU and memory differed |
| `Settling.ApplyLeavesIff` | api/v1/own/deployment.go:65-90 | Exactly when an Apply leaves the stored mark, the count, and the resources of an existing Deployment as they are |
| `Settling.EightGpusNeverCome` | api/v1/own/deployment.go:76-90 | A Deployment made for one GPU is settled for the same app with eight |
| `Settling.AutoscalerAndDeploymentAgree` | api/v1/own/autoscaler.go:93-109 | The autoscaler targets the app's own Deployment, and Apply keeps a count exactly when it lies within the bounds the autoscaler is given |
| `Settling.SettledIff` | api/v1/own/destinationrule.go:54-66 | For the other kinds: nothing changes exactly when the stored object matches, metadata included when DeepEqual can never succeed |
| `Contents.GatewayDestinations` | api/v1/own/virtualservice.go:317-349 | A gateway request goes wholly to the first app asked for, or to all apps with the weights of their versions: to the Service's full name, the app's port and the app's subset |
| `Contents.MeshDestinations` | api/v1/own/virtualservice.go:317-330 | A mesh request goes wholly to the first app that takes its caller, in the same terms |
| `Contents.GatewayReads` | api/v1/own/virtualservice.go:187-200 | A settled gateway VirtualService answers for the gateway's hosts at the ingress gateway, each route with the gateway's CORS lists in their places and the defaults for empty methods and headers |
| `Contents.MeshReads` | api/v1/own/virtualservice.go:187-200 | A settled mesh VirtualService answers for the Service's full name inside the mesh, without CORS |
| `Contents.RuleReads` | api/v1/own/destinationrule.go:79-116 | A settled DestinationRule is for that host, balances in turn, and has one subset per app with the app's name, the Plus's name and the version |
| `Contents.ServiceReads` | api/v1/own/service.go:79-126 | A settled Service passes the app's port on unchanged, over TCP, to pods with the Plus's labels |
| `Contents.AutoscalerReads` | api/v1/own/autoscaler.go:88-109 | A settled autoscaler scales the app's Deployment between its bounds, at 80 percent |
| `Contents.DeploymentReads` | api/v1/own/deployment.go:344-368 | A settled Deployment has the app's labels, port and restart mark, and each of the proxy's four quantities under its own annotation exactly when it is not "0" |
| `Contents.KeysRead` | api/v1/own/virtualservice.go:143-146 | The names of the objects a Plus writes |
| `Contents.CreatedReads` | api/v1/own/deployment.go:138-158 | The labels and annotations that objects are created with, and the least replicas a Deployment starts with |
| `Settling.EffectSettles` | api/v1/own/destinationrule.go:47-66 | For the other kinds one Apply settles |
| `CalmReconciles.CalmReconcile` | controllers/plus_controller.go:64-147 | Without faults a reconcile of a live Plus registers the finalizer, has the effect of the five stages, and stores the status read back |
| `CalmReconciles.StagesAreChildren` | controllers/plus_controller.go:113-126 | The six stages of the loop compose to the five store effects, and only the status stage notes anything |
| `CalmReconciles.ChildrenFrame` | controllers/plus_controller.go:193-201 | Each stage changes objects of its own kind only |
| `Convergence.RoundAdvances` | controllers/plus_controller.go:64-147 | What each further reconcile adds to what is settled, whatever the store was |
| `Convergence.RunSettles` | controllers/plus_controller.go:64-147 | With apps that can agree on what they share, after n + 1 fault-free reconciles of n apps every child, the finalizer and the status are settled; of the resources only the printed CPU and memory need then be the app's |
| `Convergence.RunConverges` | controllers/plus_controller.go:64-147 | From the (n + 1)st reconcile on the whole store never changes again |
| `SharedVersions.FirstPass` | api/v1/own/deployment.go:38-105 | After one pass of Applies, whatever was stored, the Deployment of each version fits all the apps of that version but for a count that is accepted by all or not above their largest lower bound |
| `SharedVersions.SecondPass` | api/v1/own/deployment.go:38-105 | One more pass settles it for all of them |
| `SharedVersions.DistinctIsCompatible` | api/v1/own/service.go:37-70 | With distinct versions, the apps can agree if and only if their Service ports are equal |
| `Resting.RestIff` | controllers/plus_controller.go:64-147 | A fault-free reconcile leaves the whole store as it is if and only if every child, the finalizer and the status are settled |
| `Resting.SettledIsCompatible` | api/v1/own/deployment.go:38-105 | Children that are all settled belong to apps that can agree on what they share |
| `Resting.RunRestsIff` | controllers/plus_controller.go:64-147 | For every app list: a long enough fault-free run comes to rest if and only if the apps can agree on the Service, and those of one version on their Deployment and autoscaler |
| `Recovery.ReconcileHealthy` | controllers/plus_controller.go:64-147 | No fault in a reconcile deletes a live Plus, changes its design or stores an object of a wrong kind |
| `Recovery.ReconcileDepends` | controllers/plus_controller.go:64-147 | A reconcile depends on the fates of its own calls only |
| `Recovery.ConvergesAfterFaults` | controllers/plus_controller.go:64-147 | Whatever became of all calls before some reconcile, if calls succeed from then on, n + 1 further reconciles of n apps that can agree reach a store at rest, in the sense of RunSettles, that never changes again |
| `Phases.AsksOwnKey` | controllers/plus_controller.go:193-201 | Every request of a reconciler goes to a key its Plus owns |
| `Phases.ActSound` | controllers/plus_controller.go:64-147 | Every call, whatever its fate, leads from a reachable phase to a reachable one: what is left to do is a tail of the stages |
| `Faults.SettledStays` | controllers/plus_controller.go:114-126 | Over any number of reconciles with arbitrary faults, a settled child is never written again |
| `Faults.UnsettledShrinks` | controllers/plus_controller.go:114-126 | The set of keys that do not match never grows, for every design and every fate of every call |
| `Faults.ReconcileIsOldOrNew` | controllers/plus_controller.go:114-126 | With distinct versions and equal ports, at every moment of a reconcile with arbitrary faults each child is what it was before or what its task makes of that |
| `Faults.NewDeployment` | api/v1/own/deployment.go:50-101 | What a Deployment task writes is deleted, as generated at creation, or agrees with the app |
| `Faults.NewContents` | api/v1/own/virtualservice.go:38-101 | What any other task writes is exactly the generated object, or nothing when unwanted |
| `Faults.OthersUntouched` | controllers/plus_controller.go:193-201 | Keys the Plus does not own are never touched |
| `Faults.CarriesOverForever` | api/v1/own/deployment.go:65-90 | For any app list, over any number of reconciles with arbitrary faults, as long as every app of the version wants a Deployment: the stored restart mark never changes if each of them sets none or that one, the count if each accepts it, and the resources as a whole if CPU and memory print as each wants them |
| `Interference.InterleavingIsSequential` | controllers/plus_controller.go:255-257 | For any number of Pluses no two of which own a key in common, every interleaving of their calls, with any fates, ends in the same reconcilers and the same store as one after the other |
| `Interference.ReconcilesDoNotInterfere` | controllers/plus_controller.go:255-257 | Said of any number of whole reconciles |
| `Interference.ApartIff` | controllers/plus_controller.go:193-201 | Exactly when two Pluses own no key in common |
| `Interference.JoinedEqualIff` | api/v1/plus_types.go:90-92 | Exactly when two names joined with versions collide |
| `Interference.NamesKeepApart` | api/v1/own/virtualservice.go:143-146 | Different names, neither the other plus "-gateway", and no "-" in a version suffice |
| `Interference.NamesMayCollide` | api/v1/plus_types.go:90-92 | Different names alone do not: a concrete collision |
| `Interference.SharedDeploymentIsFoughtOver` | api/v1/own/deployment.go:38-105 | Two Pluses that share a Deployment with different images leave different results in different orders |
| `ReplicaSafety.AppliedStaysInRange` | api/v1/own/deployment.go:45-67 | From any store, over any interleaving with in-range autoscaler writes and any other writers elsewhere: once the app's Deployment has been applied its count is in range, and stays so if all the apps of its version start within its bounds or not at all (`SharesBounds`) |
| `ReplicaSafety.StaysInRange` | api/v1/own/deployment.go:239-242 | Under `SharesBounds` a count in range stays in range over any such run |
| `BoundsClash.EffectsKeepRangeIff` | api/v1/own/deployment.go:45-67 | Every Apply of every app of the version keeps every in-range Deployment in range if and only if `SharesBounds` holds |
| `BoundsClash.StaysInRangeIff` | api/v1/own/deployment.go:45-67 | From any point of any reconcile with the count in range: it stays in range over all runs of calls and permitted writes if and only if `SharesBounds` holds |
| `BoundsClash.AppliedStaysInRangeIff` | api/v1/own/deployment.go:45-67 | From any store, over any interleaving: once the app's Deployment has been applied its count is in range, and it is sure to stay there if and only if `SharesBounds` holds |
| `BoundsClash.TwoBluesAdmitted` | api/v1/plus_types.go:176-201 | The webhooks admit two apps of version "blue" with bounds 2..3 and 5..6 unchanged |
| `BoundsClash.TwoBluesClash` | api/v1/own/deployment.go:45-67 | Those two fail `SharesBounds`, for either app, and `Compatible` |
| `BoundsClash.TwoBluesTakeTurns` | api/v1/own/deployment.go:45-67 | In every reconcile, whatever was stored, the first one's turn leaves two or three replicas and the second one's leaves five |
| `BoundsClash.TwoBluesNeverRest` | controllers/plus_controller.go:64-147 | Their reconciles change the store every time, over any fault-free run |
| `ReplicaSafety.UpdateDueIff` | api/v1/own/deployment.go:64-100 | After reading an existing Deployment with an in-range count, an update is due if and only if the read was answered and the Deployment does not agree with the app |
| `ReplicaSafety.CountSurvivesIff` | api/v1/own/deployment.go:64-100 | Whatever others write between the read and the next call, and whatever becomes of both: the count stored just before that call survives it if and only if the read failed, the Deployment that was read agrees, the call is turned away, or it is the count that was read |
| `ReplicaSafety.QuietHalvesKeepCount` | api/v1/own/deployment.go:45-100 | With no write to the Deployment between the two halves an in-range count is left as it is, whatever becomes of both calls |
| `ReplicaSafety.AutoscaleBetweenHalvesIsLost` | api/v1/own/deployment.go:65-100 | When the Deployment that was read does not agree, an update that is not turned away puts the count that was read in the place of any written since |
| `ReplicaSafety.AutoscalerChoiceUndone` | api/v1/own/deployment.go:65-100 | A run in which the autoscaler's five replicas fall back to the three that were read |
| `ReplicaSafety.AdmittedIsBounded` | api/v1/plus_app_types.go:57-65 | Every admitted app with a positive minimum has the bounds the replica results ask for |
| `ReplicaSafety.AutoscalerIsAllowed` | api/v1/own/autoscaler.go:93-109 | The counts the app's own autoscaler may choose are writes those results allow |
| `FinalizerLife.GoneOnlyAfterPreDelete` | controllers/plus_controller.go:149-190 | Over any run with user deletes, edits, creations and foreign finalizers: a Plus once seen live is gone only after a reconcile ran PreDelete for it, carries the finalizer until then, and never carries it twice |
| `FinalizerLife.AppliedOnlyWhileLive` | controllers/plus_controller.go:157-167 | When a reconcile gets past the finalizer step, the Plus is stored, live and carries the finalizer at that moment, and PreDelete has not run |
| `FinalizerLife.WorkStartsPastFinalizer` | controllers/plus_controller.go:99-107 | Work on the children starts in no other way |
| `FinalizerLife.DeletingIsNotApplied` | controllers/plus_controller.go:168-188 | After reading a deleting Plus at most one more call follows, and it is on the Plus itself |
| `FinalizerLife.DeletingReconcileTouchesNoChild` | controllers/plus_controller.go:168-188 | A reconcile that reads the Plus as deleting leaves every other key as it is, whatever the fates of its calls |
| `FinalizerLife.WorkOnlyWhileRegistered` | controllers/plus_controller.go:99-147 | Over any run: while a reconcile is at work on the children or writes the status, the Plus is stored and carries the finalizer, PreDelete has not run for it, and it was read live |
| `FinalizerLife.ChildWrittenOnlyWhileRegistered` | controllers/plus_controller.go:113-126 | So no child is ever written once the Plus is gone or PreDelete has run for it |
| `FinalizerLife.WorkOnDeletingIff` | controllers/plus_controller.go:99-126 | A reconcile works on the children of a deleting Plus if and only if the user deleted it in the middle of that very work, begun while it was live |
| `FinalizerLife.DeletionDoesNotStopWork` | controllers/plus_controller.go:113-126 | Such a deletion changes nothing about the next write to a child |
| `DeletionRace.DeletingPlusIsDeployed` | controllers/plus_controller.go:99-126 | For every design that deploys its first app, a run of four events in which the Deployment of a Plus that is already being deleted is created |
| `FinalizerLife.DeletingNeverRegains` | controllers/plus_controller.go:158-167 | Over any run: from the moment a Plus is being deleted without the finalizer until it is gone, it never has the finalizer and never is live again, stale writes included |
| `FinalizerLife.ForeignFinalizersKept` | controllers/func.go:12-20 | The operator's calls keep all other finalizers in their order, and never make a Plus go while one is left |
| `FinalizerLife.DeletionCompletes` | controllers/plus_controller.go:168-188 | One fault-free reconcile takes the finalizer off a deleting Plus, which is then gone exactly if no other is left |
| `StatusAgreement.StatusStage` | api/v1/own/deployment.go:107-122 | The status stage overlays exactly what the longest readable prefix of apps reports, and makes one call more than it can read |
| `StatusAgreement.PrefixExists` | api/v1/own/deployment.go:112-117 | There always is such a prefix |
| `StatusAgreement.StatusAgreesOnPrefix` | api/v1/own/deployment.go:112-119 | Every version of that prefix gets what its Deployment reports |
| `StatusAgreement.StatusKeepsTheRest` | api/v1/own/deployment.go:112-119 | No other entry is changed, dropped or added |
| `EndToEnd.StoredGatewayMeaning` | api/v1/own/virtualservice.go:38-69 | At rest, evaluating the stored gateway table is following the direct routing rule, for every request |
| `EndToEnd.StoredMeshMeaning` | api/v1/own/virtualservice.go:71-99 | At rest, the stored mesh table sends every request to the first app that takes its caller |
| `EndToEnd.StoredSubsetSelectsStoredPods` | api/v1/own/destinationrule.go:79-87 | At rest, the stored subset named after an app selects the pods of that app's stored Deployment if and only if its template labels agree |
| `EndToEnd.StoredRequestsStay` | api/v1/plus_types.go:98-105 | At rest, no request to one Plus, going by its stored Service and rule, reaches a pod of another Plus's stored Deployments |
| `EndToEnd.StoredPortsMeet` | api/v1/own/service.go:117-126 | At rest, the port requests are sent to is the stored Service's, and leads to that of the stored Deployment's pods |
| `EndToEnd.StoredMeshHop` | api/v1/own/virtualservice.go:209-217 | At rest, going by the stored table, Service selector and subsets: any pod a coloured caller reaches has its colour if and only if the callee keeps the colour |
| `EndToEnd.StoredColourHop` | api/v1/own/virtualservice.go:209-217 | At rest, going by the same stored objects: a coloured caller does reach the pods of its colour's stored Deployment, given agreeing labels |
| `EndToEnd.StoredColourSurvives` | api/v1/own/virtualservice.go:206-281 | Along call chains of any length between Pluses at rest, every hop judged by the stored objects: a request that enters with a colour stays on pods of that colour as far as the callees keep it |
| `EndToEnd.OperatorDeliversRouting` | controllers/plus_controller.go:64-147 | Whatever faults came before, n + 1 good reconciles later the stored gateway table means the direct routing rule and the stored mesh table sends every request to the first app that takes its caller |
| `EndToEnd.OperatorDeliversColours` | controllers/plus_controller.go:64-147 | And by then a coloured caller reaches, going by the stored objects, the pods of its colour's stored Deployment and none of another colour, given agreeing labels and a callee that keeps the colour |

## Left out

- The API server's own validation and defaulting, for instance of immutable selectors: a rejection is a refused call, and a written object is read back as written.
- Quantity formatting: a quantity is its printed form and the rest of its representation; equal printed forms need not be equal quantities.
- Duration parsing: a duration text carries what the parser makes of it.
- Pod-spec detail (probes, volumes, environment, tolerations, affinity, rollout strategy): one opaque value per app, copied and compared as a whole; nil and empty lists inside it are not told apart.
- Owner references, garbage collection, and the removal of children of removed versions or of a removed gateway: the operator does not remove them itself.
- A change of the spec in mid-run: results over runs fix the design, except those on the finalizer life cycle, where others may edit it at any time.
- Stale caches: reads see the store as it is. In the replica and finalizer results other writers may step in between a read and the write that follows it.
- FilterRequest, configuration loading, event recording, logging and panic recovery; app entries that are nil pointers.
- The work queue: results count reconciles and calls, not time, and retries are simply further reconciles.
- Query strings and the treatment of empty exact-match header values by the proxy.
- Two reconcilers of the same Plus at once: the work queue never runs them concurrently.
- The order of Go's map iteration is modelled as any order, in the weight sum and in copying label maps.
- PreDelete's contents: it does nothing in the source; reaching it is what the finalizer results speak of.
- Faults.ReconcileIsOldOrNew: assumes distinct versions and equal ports, because apps that share a key write their own versions of it in turn.
