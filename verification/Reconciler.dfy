/** The reconciler itself: one reconcile carried out by the five resources on a shared instance. */
module Reconcilers {
  import opened Wrappers
  import opened PlusTypes
  import opened Routes
  import opened Api
  import opened Children
  import opened PlusInstances
  import opened Finalizers
  import opened Reconciling
  import opened Reporting
  import Deployments
  import Services
  import DestinationRules
  import VirtualServices
  import Autoscalers

  /** The CORS defaults change neither the autoscaler stage nor the printed status. */
  lemma FillKeepsRest(plus: Plus)
    ensures AutoscalerTasks(FillDesign(plus.design)) == AutoscalerTasks(plus.design)
    ensures StatusOf(Filled(plus)) == StatusOf(plus)
  {
    assert PrefixPath(FillDesign(plus.design)) == PrefixPath(plus.design);
  }

  lemma RunStagesTurn(plus: Plus, stages: seq<seq<Task>>, i: nat, w: World, fates: Fates)
    requires i < |stages|
    ensures var r := RunStage(plus, stages[i], w, fates);
      RunStages(plus, stages[i..], w, fates) == RunStages(AfterStage(r), stages[i + 1..], r.world, fates)
  {
    assert stages[i..][1..] == stages[i + 1..];
  }

  class PlusReconciler {
    const server: ApiServer

    constructor (server: ApiServer)
      ensures this.server == server
    {
      this.server := server;
    }

    /** Writes the instance back with these finalizers, and on success takes over what was stored. */
    method UpdatePlus(key: Key, instance: PlusInstance, finalizers: seq<string>, version: nat)
      returns (response: Response)
      requires key.kind == PlusKind && WellTyped(server.store)
      modifies server, instance
      ensures WellTyped(server.store)
      ensures var verb := Update(PlusObject(old(instance.Value()).(finalizers := finalizers)), Some(version));
        (server.Current(), response) == Call(old(server.Current()), Request(key, verb), server.fates)
      ensures response.Stored? && response.obj.PlusObject? ==> instance.Value() == response.obj.plus
    {
      instance.finalizers := finalizers;
      var verb := Update(PlusObject(instance.Value()), Some(version));
      ExecuteKeepsTypes(server.store, Request(key, verb), server.fates(server.calls));
      response := server.Do(key, verb);
      if response.Stored? && response.obj.PlusObject? {
        var stored := response.obj.plus;
        instance.design, instance.finalizers := stored.design, stored.finalizers;
        instance.deleting, instance.status := stored.deleting, stored.status;
      }
    }

    /** Registers or removes the operator's finalizer. `version` becomes the version of what is stored;
        `over` is true when the reconcile ends here. */
    method Finalizer(key: Key, instance: PlusInstance, version: nat)
      returns (version': nat, over: bool, result: Result)
      requires key.kind == PlusKind && WellTyped(server.store)
      modifies server, instance
      ensures WellTyped(server.store)
      ensures Finalize(key, old(instance.Value()), version, old(server.Current()), server.fates)
           == if over then Over(server.Current(), result) else GoOn(instance.Value(), version', server.Current())
    {
      var has := ContainsString(instance.finalizers, OWN_FINALIZER);
      if !instance.deleting {
        if !has {
          var response := UpdatePlus(key, instance, instance.finalizers + [OWN_FINALIZER], version);
          if !response.Stored? || !response.obj.PlusObject? {
            return version, true, Error;
          }
          return response.version, false, Ok;
        }
        return version, false, Ok;
      }
      result := Ok;
      if has {
        var remaining := RemoveString(instance.finalizers, OWN_FINALIZER);
        var response := UpdatePlus(key, instance, remaining, version);
        result := if response.Failed? then Error else Ok;
      }
      version', over := version, true;
    }

    /** Applies the five resources in order; each failure clears the success flag and the next one still runs. */
    method ApplyResources(instance: PlusInstance)
      requires WellTyped(server.store)
      modifies server, instance
      ensures WellTyped(server.store)
      ensures var (plus, w) := RunStages(old(instance.Value()), Stages(old(instance.design)), old(server.Current()),
                                         server.fates);
        w == server.Current() && StatusOf(instance.Value()) == StatusOf(plus)
      ensures instance.status.success <==>
        && old(instance.status.success)
        && NoStageFails(old(instance.Value()), Stages(old(instance.design)), old(server.Current()), server.fates)
    {
      ghost var d, fates := instance.design, server.fates;
      ghost var stages := Stages(d);
      StagesSucceedIff(instance.Value(), stages, server.Current(), fates);
      ghost var whole := RunStages(instance.Value(), stages, server.Current(), fates);
      assert stages[0..] == stages;

      RunStagesTurn(instance.Value(), stages, 0, server.Current(), fates);
      var deployment := new Deployments.Deployment(instance, server);
      var ok := deployment.Apply();
      Record(instance, ok);
      assert whole == RunStages(instance.Value(), stages[1..], server.Current(), fates);

      RunStagesTurn(instance.Value(), stages, 1, server.Current(), fates);
      deployment.UpdateStatus();
      assert whole == RunStages(instance.Value(), stages[2..], server.Current(), fates);

      RunStagesTurn(instance.Value(), stages, 2, server.Current(), fates);
      ghost var plus := ApplyService(instance);
      assert whole == RunStages(plus, stages[3..], server.Current(), fates);

      ApplyMeshResources(instance, stages);
    }

    method ApplyService(instance: PlusInstance) returns (ghost plus: Plus)
      requires WellTyped(server.store)
      modifies server, instance`status
      ensures WellTyped(server.store) && plus == instance.Value()
      ensures var r := RunStage(old(instance.Value()), ServiceTasks(old(instance.design)),
                                old(server.Current()), server.fates);
        plus == AfterStage(r) && server.Current() == r.world
    {
      var service := new Services.Service(instance, server);
      var ok := service.Apply();
      Record(instance, ok);
      plus := instance.Value();
    }

    method Record(instance: PlusInstance, ok: bool)
      modifies instance`status
      ensures instance.Value() == if ok then old(instance.Value()) else Failing(old(instance.Value()))
    {
      if !ok {
        instance.status := instance.status.(success := false);
      }
    }

    /** The last three resources. Generating the gateway table fills CORS defaults into the instance. */
    method ApplyMeshResources(instance: PlusInstance, ghost stages: seq<seq<Task>>)
      requires WellTyped(server.store) && stages == Stages(instance.design)
      modifies server, instance
      ensures WellTyped(server.store)
      ensures var (plus, w) := RunStages(old(instance.Value()), stages[3..], old(server.Current()), server.fates);
        w == server.Current() && StatusOf(instance.Value()) == StatusOf(plus)
    {
      ghost var fates := server.fates;
      ghost var whole := RunStages(instance.Value(), stages[3..], server.Current(), fates);
      RunStagesTurn(instance.Value(), stages, 3, server.Current(), fates);
      ghost var plus := ApplyDestinationRule(instance);
      assert whole == RunStages(plus, stages[4..], server.Current(), fates);

      RunStagesTurn(plus, stages, 4, server.Current(), fates);
      plus := ApplyVirtualService(instance);
      assert whole == RunStages(plus, stages[5..], server.Current(), fates);

      RunStagesTurn(plus, stages, 5, server.Current(), fates);
      plus := ApplyAutoScaling(instance, plus);
    }

    method ApplyDestinationRule(instance: PlusInstance) returns (ghost plus: Plus)
      requires WellTyped(server.store)
      modifies server, instance`status
      ensures WellTyped(server.store) && plus == instance.Value()
      ensures var r := RunStage(old(instance.Value()), [Task.ApplyDestinationRule],
                                old(server.Current()), server.fates);
        plus == AfterStage(r) && server.Current() == r.world
    {
      var destinationRule := new DestinationRules.DestinationRule(instance, server);
      var ok := destinationRule.Apply();
      Record(instance, ok);
      plus := instance.Value();
    }

    /** `plus` is what the instance would be without the CORS defaults. */
    method ApplyVirtualService(instance: PlusInstance) returns (ghost plus: Plus)
      requires WellTyped(server.store)
      modifies server, instance
      ensures WellTyped(server.store)
      ensures instance.Value() == plus || instance.Value() == Filled(plus)
      ensures var r := RunStage(old(instance.Value()), VirtualServiceTasks(old(instance.design)),
                                old(server.Current()), server.fates);
        plus == AfterStage(r) && server.Current() == r.world
    {
      ghost var r := RunStage(instance.Value(), VirtualServiceTasks(instance.design), server.Current(), server.fates);
      FillKeepsStage(instance.Value(), VirtualServiceTasks(instance.design), server.Current(), server.fates);
      var virtualService := new VirtualServices.VirtualService(instance, server);
      var ok := virtualService.Apply();
      Record(instance, ok);
      plus := AfterStage(r);
    }

    method ApplyAutoScaling(instance: PlusInstance, ghost before: Plus) returns (ghost plus: Plus)
      requires WellTyped(server.store)
      requires instance.Value() == before || instance.Value() == Filled(before)
      modifies server, instance
      ensures WellTyped(server.store)
      ensures StatusOf(instance.Value()) == StatusOf(plus)
      ensures var r := RunStage(before, AutoscalerTasks(before.design), old(server.Current()), server.fates);
        plus == AfterStage(r) && server.Current() == r.world
    {
      ghost var r := RunStage(before, AutoscalerTasks(before.design), server.Current(), server.fates);
      FillKeepsRest(before);
      FillKeepsStage(before, AutoscalerTasks(before.design), server.Current(), server.fates);
      var autoScaling := new Autoscalers.AutoScaling(instance, server);
      var ok := autoScaling.Apply();
      Record(instance, ok);
      plus := AfterStage(r);
      FillKeepsRest(plus);
    }

    method WriteStatus(key: Key, instance: PlusInstance, before: Status, version: nat) returns (result: Result)
      requires WellTyped(server.store)
      modifies server, instance`status
      ensures WellTyped(server.store)
      ensures var w := old(server.Current());
        var status := StatusOf(old(instance.Value()));
        (server.Current(), result) ==
          if StatusChanged(status, before) then
            var (w', r) := Call(w, Request(key, PutStatus(status, Some(version))), server.fates);
            (w', StatusResult(r))
          else (w, Ok)
    {
      instance.GenerateStatusDesc();
      result := Ok;
      if StatusChanged(instance.status, before) {
        var verb := PutStatus(instance.status, Some(version));
        ExecuteKeepsTypes(server.store, Request(key, verb), server.fates(server.calls));
        var response := server.Do(key, verb);
        result := StatusResult(response);
      }
    }

    method Reconcile(key: Key) returns (result: Result)
      requires key.kind == PlusKind && WellTyped(server.store)
      modifies server
      ensures WellTyped(server.store)
      ensures (server.Current(), result) == Reconciling.Reconcile(key, old(server.Current()), server.fates)
      ensures ReportsSuccess(key, old(server.Current()), server.fates, (server.Current(), result))
    {
      ReconcileReports(key, server.Current(), server.fates);
      var fetched := server.Do(key, Get);
      if fetched.Absent? {
        return Ok;
      }
      if !fetched.Found? {
        return Error;
      }
      var instance := new PlusInstance(fetched.obj.plus);
      var version, over;
      version, over, result := Finalizer(key, instance, fetched.version);
      if over {
        return;
      }
      result := Work(key, instance, version);
    }

    /** The resources, and then the status. */
    method Work(key: Key, instance: PlusInstance, version: nat) returns (result: Result)
      requires WellTyped(server.store)
      modifies server, instance
      ensures WellTyped(server.store)
      ensures (server.Current(), result)
           == ApplyAll(key, old(instance.Value()), version, old(server.Current()), server.fates)
    {
      var before := instance.status;
      instance.status := instance.status.(success := true);
      ApplyResources(instance);
      result := WriteStatus(key, instance, before, version);
    }
  }
}
