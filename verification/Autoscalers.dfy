/** The autoscaler resource: at most one autoscaler is created per run, and none from the first keda app on. */
module Autoscalers {
  import opened Wrappers
  import opened PlusTypes
  import opened Api
  import opened Children
  import opened PlusInstances

  class AutoScaling {
    const plus: PlusInstance
    const server: ApiServer

    constructor (plus: PlusInstance, server: ApiServer)
      ensures this.plus == plus && this.server == server
    {
      this.plus, this.server := plus, server;
    }

    /** One app's autoscaler; `go` says whether the loop goes on. */
    method ApplyApp(app: App) returns (ok: bool, go: bool)
      requires WellTyped(server.store)
      modifies server
      ensures WellTyped(server.store)
      ensures RunTask(plus.Value(), ApplyAutoscaler(app), old(server.Current()), server.fates)
           == Outcome(plus.Value(), server.Current(), if !ok then Fail else if go then Next else Stop)
    {
      var key := Key(AutoscalerKind, plus.design.ns, AppName(plus.design, app));
      var spec := AutoscalerSpec(app.minReplicas, app.maxReplicas, AppName(plus.design, app), 80);
      var wanted := AutoscalerObject(NO_META, spec);
      var found := server.Do(key, Get);
      if found.Failed? {
        return false, false;
      }
      var verb: Verb;
      go := true;
      if wanted.autoscaler.minReplicas == -1 {
        if found.Absent? {
          return true, true;
        }
        verb := Delete;
      } else if found.Absent? {
        verb, go := Create(wanted), false;
      } else if wanted.autoscaler == found.obj.autoscaler {
        return true, true;
      } else {
        verb := Update(wanted, Some(found.version));
      }
      ExecuteKeepsTypes(server.store, Request(key, verb), server.fates(server.calls));
      var response := server.Do(key, verb);
      ok := !response.Failed?;
    }

    method Apply() returns (ok: bool)
      requires WellTyped(server.store)
      modifies server
      ensures WellTyped(server.store)
      ensures RunStage(plus.Value(), AutoscalerTasks(plus.design), old(server.Current()), server.fates)
           == Outcome(plus.Value(), server.Current(), if ok then Stop else Fail)
    {
      var apps := plus.design.spec.apps;
      ghost var p, tasks, whole := plus.Value(), AutoscalerTasks(plus.design),
        RunStage(plus.Value(), AutoscalerTasks(plus.design), server.Current(), server.fates);
      ghost var cut := KedaCut(apps);
      assert tasks[0..] == tasks;
      for i := 0 to |apps|
        invariant i <= cut
        invariant WellTyped(server.store)
        invariant whole == RunStage(p, tasks[i..], server.Current(), server.fates)
      {
        if apps[i].scaleType == "keda" {
          return true;
        }
        StageTurn(p, tasks, i, server.Current(), server.fates);
        var go;
        ok, go := ApplyApp(apps[i]);
        if !ok || !go {
          return;
        }
      }
      return true;
    }
  }
}
