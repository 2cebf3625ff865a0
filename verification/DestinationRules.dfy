/** The DestinationRule resource: one subset per app. */
module DestinationRules {
  import opened Wrappers
  import opened PlusTypes
  import opened Routes
  import opened Api
  import opened Children
  import opened PlusInstances

  class DestinationRule {
    const plus: PlusInstance
    const server: ApiServer

    constructor (plus: PlusInstance, server: ApiServer)
      ensures this.plus == plus && this.server == server
    {
      this.plus, this.server := plus, server;
    }

    method Generate() returns (spec: DestinationRuleSpec)
      ensures spec == DestinationRuleFor(plus.design)
      ensures forall subset | subset in spec.subsets ::
                "plus" in subset.labels && subset.labels["plus"] == plus.design.name
    {
      var apps := plus.design.spec.apps;
      var subsets := [];
      for i := 0 to |apps|
        invariant subsets == Subsets(plus.design)[..i]
        invariant forall subset | subset in subsets ::
                    "plus" in subset.labels && subset.labels["plus"] == plus.design.name
      {
        var labels := plus.GenerateAppLabels(apps[i]);
        subsets := subsets + [Subset(AppName(plus.design, apps[i]), labels)];
      }
      var policy := plus.design.spec.policy;
      spec := DestinationRuleSpec(ServiceHost(plus.design),
                                  TrafficPolicy("ROUND_ROBIN", ConnectionPoolFor(policy), OutlierFor(policy)),
                                  subsets, "");
    }

    method Apply() returns (ok: bool)
      requires WellTyped(server.store)
      modifies server
      ensures WellTyped(server.store)
      ensures RunStage(plus.Value(), [ApplyDestinationRule], old(server.Current()), server.fates)
           == Outcome(plus.Value(), server.Current(), if ok then Stop else Fail)
    {
      ghost var p, tasks := plus.Value(), [ApplyDestinationRule];
      StageTurn(p, tasks, 0, server.Current(), server.fates);
      assert tasks[0..] == tasks;
      var key := Key(DestinationRuleKind, plus.design.ns, plus.design.name);
      var spec := Generate();
      var found := server.Do(key, Get);
      if found.Failed? {
        return false;
      }
      var verb: Verb;
      if found.Absent? {
        verb := Create(DestinationRuleObject(NO_META, spec));
      } else if spec == found.obj.destinationRule && DestinationRuleRoundTrips(plus.design) {
        return true;
      } else {
        verb := Update(DestinationRuleObject(NO_META, spec), Some(found.version));
      }
      ExecuteKeepsTypes(server.store, Request(key, verb), server.fates(server.calls));
      var response := server.Do(key, verb);
      return !response.Failed?;
    }
  }
}
