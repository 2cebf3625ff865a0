/** The Deployment resource: one Deployment per app, and the status read back from them. */
module Deployments {
  import opened Wrappers
  import opened PlusTypes
  import opened Api
  import opened Children
  import opened PlusInstances

  class Deployment {
    const plus: PlusInstance
    const server: ApiServer

    constructor (plus: PlusInstance, server: ApiServer)
      ensures this.plus == plus && this.server == server
    {
      this.plus, this.server := plus, server;
    }

    method SetIfSet(m: StringMap, key: string, q: Quantity) returns (r: StringMap)
      ensures r == m + IfSet(key, q)
    {
      r := m;
      if q.canonical != "0" {
        r := r[key := q.canonical];
      }
    }

    method BuildAnnotations(app: App) returns (m: StringMap)
      ensures m == PodAnnotations(app)
    {
      m := map[RESTART_MARK := app.restartMark];
      m := Overlay(m, app.templateAnnotations);
      m := SetIfSet(m, "sidecar.istio.io/proxyCPU", app.proxyResources.requestCpu);
      m := SetIfSet(m, "sidecar.istio.io/proxyCPULimit", app.proxyResources.limitCpu);
      m := SetIfSet(m, "sidecar.istio.io/proxyMemory", app.proxyResources.requestMemory);
      m := SetIfSet(m, "sidecar.istio.io/proxyMemoryLimit", app.proxyResources.limitMemory);
    }

    method Generate(app: App) returns (meta: Meta, spec: DeploymentSpec)
      ensures meta == DeploymentMeta(plus.design, app) && spec == DeploymentFor(plus.design, app)
    {
      var labels := plus.GenerateAppLabels(app);
      var podLabels := plus.GenerateAppTemplateLabels(app);
      var annotations := BuildAnnotations(app);
      meta := Meta(labels, plus.design.annotations);
      spec := DeploymentSpec(app.minReplicas, labels, podLabels, annotations,
                             AppImage(app), app.port, app.resources, app.pod);
    }

    /** The part of the found Deployment that the generated one takes over; `same` is false when an update is due. */
    method Reconcile(app: App, wanted: DeploymentSpec, found: DeploymentSpec)
      returns (spec: DeploymentSpec, same: bool)
      ensures spec == CarryOver(app, wanted, found) && (same <==> spec == found)
      ensures spec.resources.requestCpu.canonical == wanted.resources.requestCpu.canonical
      ensures spec.resources.requestMemory.canonical == wanted.resources.requestMemory.canonical
      ensures spec.resources.limitCpu.canonical == wanted.resources.limitCpu.canonical
      ensures spec.resources.limitMemory.canonical == wanted.resources.limitMemory.canonical
      ensures spec.resources == found.resources || spec.resources == wanted.resources
    {
      spec := wanted;
      if found.replicas >= app.minReplicas && found.replicas <= app.maxReplicas {
        spec := spec.(replicas := found.replicas);
      }
      if app.restartMark == "" {
        spec := spec.(
          podAnnotations := spec.podAnnotations[RESTART_MARK := Lookup(found.podAnnotations, RESTART_MARK)]);
      } else {
        spec := spec.(podAnnotations := spec.podAnnotations[RESTART_MARK := app.restartMark]);
      }
      same := SameCpuAndMemory(spec.resources, found.resources);
      if same {
        spec := spec.(resources := found.resources);
        same := spec == found;
      }
    }

    /** What to write, if anything, given what was found. */
    method NextWrite(app: App, found: Response) returns (due: bool, verb: Verb)
      requires found.Absent? || (found.Found? && found.obj.DeploymentObject?)
      ensures Decide(plus.design, ApplyDeployment(app), View(found)) == if due then Issue(verb, false) else Skip
    {
      var meta, wanted := Generate(app);
      if wanted.replicas == -1 {
        return !found.Absent?, Delete;
      }
      if found.Absent? {
        return true, Create(DeploymentObject(meta, wanted, 0));
      }
      var spec, same := Reconcile(app, wanted, found.obj.deployment);
      return !same, Update(DeploymentObject(meta, spec, 0), None);
    }

    method ApplyApp(app: App) returns (ok: bool)
      requires WellTyped(server.store)
      modifies server
      ensures WellTyped(server.store)
      ensures RunTask(plus.Value(), ApplyDeployment(app), old(server.Current()), server.fates)
           == Outcome(plus.Value(), server.Current(), if ok then Next else Fail)
    {
      var key := Key(DeploymentKind, plus.design.ns, AppName(plus.design, app));
      var found := server.Do(key, Get);
      if found.Failed? {
        return false;
      }
      var due, verb := NextWrite(app, found);
      if !due {
        return true;
      }
      DecidedWriteTyped(plus.design, ApplyDeployment(app), View(found));
      ExecuteKeepsTypes(server.store, Request(key, verb), server.fates(server.calls));
      var response := server.Do(key, verb);
      return !response.Failed?;
    }

    method Apply() returns (ok: bool)
      requires WellTyped(server.store)
      modifies server
      ensures WellTyped(server.store)
      ensures RunStage(plus.Value(), DeploymentTasks(plus.design), old(server.Current()), server.fates)
           == Outcome(plus.Value(), server.Current(), if ok then Stop else Fail)
    {
      var apps := plus.design.spec.apps;
      ghost var p, tasks, whole := plus.Value(), DeploymentTasks(plus.design),
        RunStage(plus.Value(), DeploymentTasks(plus.design), server.Current(), server.fates);
      assert tasks[0..] == tasks;
      for i := 0 to |apps|
        invariant WellTyped(server.store)
        invariant whole == RunStage(p, tasks[i..], server.Current(), server.fates)
      {
        StageTurn(p, tasks, i, server.Current(), server.fates);
        ok := ApplyApp(apps[i]);
        if !ok {
          return false;
        }
      }
      return true;
    }

    method ReadApp(app: App) returns (go: bool)
      requires WellTyped(server.store)
      modifies server, plus`status
      ensures WellTyped(server.store)
      ensures RunTask(old(plus.Value()), ReadStatus(app), old(server.Current()), server.fates)
           == Outcome(plus.Value(), server.Current(), if go then Next else Stop)
    {
      var found := server.Do(Key(DeploymentKind, plus.design.ns, AppName(plus.design, app)), Get);
      if !found.Found? {
        return false;
      }
      plus.status := plus.status.(available := plus.status.available[app.version := found.obj.available]);
      return true;
    }

    /** Copies the available replicas of each app's Deployment, up to the first that cannot be read. */
    method UpdateStatus()
      requires WellTyped(server.store)
      modifies server, plus`status
      ensures WellTyped(server.store)
      ensures RunStage(old(plus.Value()), StatusTasks(plus.design), old(server.Current()), server.fates)
           == Outcome(plus.Value(), server.Current(), Stop)
    {
      var apps := plus.design.spec.apps;
      ghost var tasks, whole := StatusTasks(plus.design),
        RunStage(plus.Value(), StatusTasks(plus.design), server.Current(), server.fates);
      assert tasks[0..] == tasks;
      for i := 0 to |apps|
        invariant WellTyped(server.store)
        invariant whole == RunStage(plus.Value(), tasks[i..], server.Current(), server.fates)
      {
        StageTurn(plus.Value(), tasks, i, server.Current(), server.fates);
        var go := ReadApp(apps[i]);
        if !go {
          return;
        }
      }
    }
  }
}
