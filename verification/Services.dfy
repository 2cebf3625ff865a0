/** The Service resource: every app in turn writes the one Service they share. */
module Services {
  import opened Wrappers
  import opened Text
  import opened PlusTypes
  import opened Api
  import opened Children
  import opened PlusInstances

  class Service {
    const plus: PlusInstance
    const server: ApiServer

    constructor (plus: PlusInstance, server: ApiServer)
      ensures this.plus == plus && this.server == server
    {
      this.plus, this.server := plus, server;
    }

    method BuildPorts(app: App) returns (ports: seq<ServicePort>)
      ensures ports == ServicePorts(app)
    {
      ports := [];
      ports := ports + [ServicePort(app.protocol + "-" + Itoa(app.port), "TCP", app.port, app.port)];
    }

    method Generate(app: App) returns (meta: Meta, spec: ServiceSpec)
      ensures meta == LabelMeta(plus.design) && spec == ServiceFor(plus.design, app)
    {
      var labels := plus.GenerateLabels();
      var ports := BuildPorts(app);
      meta := Meta(labels, map[]);
      spec := ServiceSpec("ClusterIP", labels, ports, "None");
    }

    /** One app's turn; `go` is false after creating, which ends the loop. */
    method ApplyApp(app: App) returns (ok: bool, go: bool)
      requires WellTyped(server.store)
      modifies server
      ensures WellTyped(server.store)
      ensures RunTask(plus.Value(), ApplyService(app), old(server.Current()), server.fates)
           == Outcome(plus.Value(), server.Current(), if !ok then Fail else if go then Next else Stop)
    {
      var meta, spec := Generate(app);
      var key, wanted := Key(ServiceKind, plus.design.ns, plus.design.name), ServiceObject(meta, spec);
      var found := server.Do(key, Get);
      if found.Failed? {
        return false, false;
      }
      var verb: Verb;
      if found.Absent? {
        verb, go := Create(wanted), false;
      } else {
        var current := found.obj.service;
        if && spec.ports == current.ports && spec.selector == current.selector
           && spec.sessionAffinity == current.sessionAffinity && spec.serviceType == current.serviceType {
          return true, true;
        }
        verb, go := Update(wanted, Some(found.version)), true;
      }
      ExecuteKeepsTypes(server.store, Request(key, verb), server.fates(server.calls));
      var response := server.Do(key, verb);
      ok := !response.Failed?;
    }

    method Apply() returns (ok: bool)
      requires WellTyped(server.store)
      modifies server
      ensures WellTyped(server.store)
      ensures RunStage(plus.Value(), ServiceTasks(plus.design), old(server.Current()), server.fates)
           == Outcome(plus.Value(), server.Current(), if ok then Stop else Fail)
    {
      var apps := plus.design.spec.apps;
      ghost var p, tasks, whole := plus.Value(), ServiceTasks(plus.design),
        RunStage(plus.Value(), ServiceTasks(plus.design), server.Current(), server.fates);
      assert tasks[0..] == tasks;
      for i := 0 to |apps|
        invariant WellTyped(server.store)
        invariant whole == RunStage(p, tasks[i..], server.Current(), server.fates)
      {
        StageTurn(p, tasks, i, server.Current(), server.fates);
        var go;
        ok, go := ApplyApp(apps[i]);
        if !ok || !go {
          return;
        }
      }
      return true;
    }
  }
}
