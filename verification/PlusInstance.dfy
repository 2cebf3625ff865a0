/** The Plus object in memory, as the reconciler and the webhooks update it. */
module PlusInstances {
  import opened Wrappers
  import opened Text
  import opened PlusTypes
  import opened Admission

  /** Copies the entries of `over` into `base`, one by one, in any order. */
  method Overlay(base: StringMap, over: StringMap) returns (m: StringMap)
    ensures m == base + over
  {
    m := base;
    var rest := over.Keys;
    while rest != {}
      invariant rest <= over.Keys
      invariant m == base + map k | k in over && k !in rest :: over[k]
    {
      var k :| k in rest;
      m, rest := m[k := over[k]], rest - {k};
    }
    assert (map k | k in over :: over[k]) == over;
  }

  /** What one more app adds to each accumulated text. */
  lemma ReplicaTurn(apps: seq<App>, i: nat, available: map<string, int32>)
    requires i < |apps|
    ensures Terminated(ReplicaEntries(apps[..i + 1], available), " ")
         == Terminated(ReplicaEntries(apps[..i], available), " ") + ReplicaEntry(apps[i], available) + " "
  {
    TerminatedSnoc(ReplicaEntries(apps[..i], available), ReplicaEntry(apps[i], available), " ");
    assert ReplicaEntries(apps[..i + 1], available)
        == ReplicaEntries(apps[..i], available) + [ReplicaEntry(apps[i], available)];
  }

  lemma ImageTurn(apps: seq<App>, i: nat)
    requires i < |apps|
    ensures Terminated(ImageEntries(apps[..i + 1]), " ")
         == Terminated(ImageEntries(apps[..i]), " ") + ImageEntry(apps[i]) + " "
  {
    TerminatedSnoc(ImageEntries(apps[..i]), ImageEntry(apps[i]), " ");
    assert ImageEntries(apps[..i + 1]) == ImageEntries(apps[..i]) + [ImageEntry(apps[i])];
  }

  lemma WeightTurn(apps: seq<App>, i: nat, weights: map<string, int32>)
    requires i < |apps|
    ensures var before := Terminated(WeightEntries(apps[..i], weights), " ");
      Terminated(WeightEntries(apps[..i + 1], weights), " ")
      == if apps[i].version in weights then before + WeightEntry(apps[i].version, weights[apps[i].version]) + " "
         else before
  {
    assert apps[..i + 1][..i] == apps[..i];
    if apps[i].version in weights {
      TerminatedSnoc(WeightEntries(apps[..i], weights), WeightEntry(apps[i].version, weights[apps[i].version]), " ");
    } else {
      assert WeightEntries(apps[..i + 1], weights) == WeightEntries(apps[..i], weights);
    }
  }

  class PlusInstance {
    var design: Design
    var finalizers: seq<string>
    var deleting: bool
    var status: Status

    function Value(): Plus
      reads this
    {
      Plus(design, finalizers, deleting, status)
    }

    constructor (plus: Plus)
      ensures Value() == plus
    {
      design, finalizers, deleting, status := plus.design, plus.finalizers, plus.deleting, plus.status;
    }

    method GenerateLabels() returns (labels: StringMap)
      ensures labels == PlusLabels(design) && "plus" in labels && labels["plus"] == design.name
    {
      labels := Overlay(map[], design.labels);
      labels := labels["plus" := design.name];
    }

    method GenerateAppLabels(app: App) returns (labels: StringMap)
      ensures labels == AppLabels(design, app)
      ensures "plus" in labels && labels["plus"] == design.name
    {
      labels := GenerateLabels();
      labels := labels["version" := app.version];
    }

    method GenerateAppTemplateLabels(app: App) returns (labels: StringMap)
      ensures labels == AppTemplateLabels(design, app)
      ensures "plus" !in app.templateLabels ==> "plus" in labels && labels["plus"] == design.name
      ensures "version" !in app.templateLabels ==> "version" in labels && labels["version"] == app.version
    {
      labels := GenerateLabels();
      labels := labels["version" := app.version];
      labels := Overlay(labels, app.templateLabels);
    }

    /** Accumulates one entry per app and trims the last separator: the entries, joined in spec order. */
    method GenerateStatusDesc()
      modifies this`status
      ensures status == old(status).(desc := StatusDesc(design, old(status).available))
    {
      var apps := design.spec.apps;
      var replicas, images, weights := "", "", "";
      for i := 0 to |apps|
        invariant status == old(status)
        invariant replicas == Terminated(ReplicaEntries(apps[..i], status.available), " ")
        invariant images == Terminated(ImageEntries(apps[..i]), " ")
        invariant weights == Terminated(WeightEntries(apps[..i], GatewayWeights(design.spec)), " ")
      {
        var app := apps[i];
        ReplicaTurn(apps, i, status.available);
        ImageTurn(apps, i);
        WeightTurn(apps, i, GatewayWeights(design.spec));
        replicas := replicas + ReplicaEntry(app, status.available) + " ";
        images := images + ImageEntry(app) + " ";
        if design.spec.gateway.Some? && app.version in design.spec.gateway.value.weights {
          weights := weights + WeightEntry(app.version, design.spec.gateway.value.weights[app.version]) + " ";
        }
      }
      assert apps[..|apps|] == apps;
      TrimmedIsJoined(ReplicaEntries(apps, status.available), " ");
      TrimmedIsJoined(ImageEntries(apps), " ");
      TrimmedIsJoined(WeightEntries(apps, GatewayWeights(design.spec)), " ");
      status := status.(desc := Desc(TrimSuffix(replicas, " "), TrimSuffix(images, " "), TrimSuffix(weights, " "),
                                     PrefixPath(design)));
    }

    /** The mutating webhook. */
    method Default()
      modifies this`design
      ensures design == Admission.Default(old(design))
    {
      ghost var apps := design.spec.apps;
      for i := 0 to |design.spec.apps|
        invariant design == old(design).(spec := old(design).spec.(apps := design.spec.apps))
        invariant |design.spec.apps| == |apps|
        invariant forall j | 0 <= j < |apps| :: design.spec.apps[j] == if j < i then DefaultApp(apps[j]) else apps[j]
      {
        if design.spec.apps[i].maxReplicas == 0 {
          var app := design.spec.apps[i];
          design := design.(spec := design.spec.(apps :=
            design.spec.apps[i := app.(maxReplicas := app.minReplicas)]));
        }
      }
      assert design.spec.apps == DefaultApps(apps);
      if design.spec.policy.Some? && design.spec.policy.value.outlier.Some? {
        var policy := design.spec.policy.value;
        if policy.outlier.value.maxEjectionPercent <= 0 {
          design := design.(spec := design.spec.(policy := Some(policy.(
            outlier := Some(policy.outlier.value.(maxEjectionPercent := 10))))));
        }
      }
    }
  }
}
