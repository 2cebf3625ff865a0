/** The printed status, app by app: what `kubectl get` shows of a Plus. */
module StatusText {
  import opened Text
  import opened PlusTypes

  function LastApp(d: Design): App
    requires d.spec.apps != []
  {
    d.spec.apps[|d.spec.apps| - 1]
  }

  function WithApps(d: Design, apps: seq<App>): Design {
    d.(spec := d.spec.(apps := apps))
  }

  function AllButLast(d: Design): Design
    requires d.spec.apps != []
  {
    WithApps(d, d.spec.apps[..|d.spec.apps| - 1])
  }

  lemma JoinOne(part: string)
    ensures Join([part], " ") == part
  {
  }

  lemma JoinTurn(parts: seq<string>, part: string)
    ensures Join(parts + [part], " ") == if parts == [] then part else Join(parts, " ") + " " + part
  {
    assert (parts + [part])[..|parts|] == parts;
  }

  // ----- one app -----

  /** The bounds, and how many replicas are available: none when nothing has been read. */
  lemma ReplicasOfOne(d: Design, app: App, available: map<string, int32>)
    requires d.spec.apps == [app]
    ensures StatusDesc(d, available).replicas
         == app.version + ":" + Itoa(app.minReplicas) + "-" + Itoa(app.maxReplicas)
            + "(" + Itoa(if app.version in available then available[app.version] else 0) + ")"
  {
    JoinOne(ReplicaEntry(app, available));
    assert ReplicaEntries([app], available) == [ReplicaEntry(app, available)];
  }

  /** The tag of the image. */
  lemma ImageOfOne(d: Design, app: App, available: map<string, int32>, repository: string, tag: string)
    requires d.spec.apps == [app] && app.image == repository + ":" + tag && ':' !in tag
    ensures StatusDesc(d, available).images == app.version + ":" + tag
  {
    LastPieceOf(repository, ':', tag);
    assert app.image == repository + [':'] + tag;
    JoinOne(ImageEntry(app));
    assert ImageEntries([app]) == [ImageEntry(app)];
  }

  lemma WeightEntriesOfOne(app: App, weights: map<string, int32>)
    ensures WeightEntries([app], weights)
         == if app.version in weights then [WeightEntry(app.version, weights[app.version])] else []
  {
    assert [app][..0] == [];
  }

  /** The weight, if the gateway gives the version one. */
  lemma WeightOfOne(d: Design, app: App, available: map<string, int32>)
    requires d.spec.apps == [app]
    ensures StatusDesc(d, available).weights
         == if d.spec.gateway.Some? && app.version in d.spec.gateway.value.weights
            then app.version + ":" + Itoa(d.spec.gateway.value.weights[app.version]) else ""
  {
    var weights := GatewayWeights(d.spec);
    WeightEntriesOfOne(app, weights);
    if app.version in weights {
      JoinOne(WeightEntry(app.version, weights[app.version]));
    }
  }

  // ----- one app more -----

  /** Each further app adds its own bounds after a space. */
  lemma ReplicasAreListed(d: Design, available: map<string, int32>)
    requires |d.spec.apps| > 1
    ensures var front, last := StatusDesc(AllButLast(d), available), StatusDesc(WithApps(d, [LastApp(d)]), available);
      StatusDesc(d, available).replicas == front.replicas + " " + last.replicas
  {
    var init, last := AllButLast(d).spec.apps, LastApp(d);
    assert ReplicaEntries(d.spec.apps, available) == ReplicaEntries(init, available) + [ReplicaEntry(last, available)];
    assert ReplicaEntries([last], available) == [ReplicaEntry(last, available)];
    JoinTurn(ReplicaEntries(init, available), ReplicaEntry(last, available));
    JoinOne(ReplicaEntry(last, available));
  }

  /** And its own tag. */
  lemma ImagesAreListed(d: Design, available: map<string, int32>)
    requires |d.spec.apps| > 1
    ensures var front, last := StatusDesc(AllButLast(d), available), StatusDesc(WithApps(d, [LastApp(d)]), available);
      StatusDesc(d, available).images == front.images + " " + last.images
  {
    var init, last := AllButLast(d).spec.apps, LastApp(d);
    assert ImageEntries(d.spec.apps) == ImageEntries(init) + [ImageEntry(last)];
    assert ImageEntries([last]) == [ImageEntry(last)];
    JoinTurn(ImageEntries(init), ImageEntry(last));
    JoinOne(ImageEntry(last));
  }

  lemma {:induction false} ListedWeightsShow(apps: seq<App>, weights: map<string, int32>)
    ensures WeightEntries(apps, weights) != [] ==> Join(WeightEntries(apps, weights), " ") != ""
  {
    if apps != [] {
      var front, version := WeightEntries(apps[..|apps| - 1], weights), apps[|apps| - 1].version;
      if version in weights {
        JoinTurn(front, WeightEntry(version, weights[version]));
      } else {
        ListedWeightsShow(apps[..|apps| - 1], weights);
      }
    }
  }

  /** Its weight as well, if it has one; nothing otherwise, not even a space. */
  lemma WeightsAreListed(d: Design, available: map<string, int32>)
    requires d.spec.apps != []
    ensures var front := StatusDesc(AllButLast(d), available).weights;
      var last := StatusDesc(WithApps(d, [LastApp(d)]), available).weights;
      StatusDesc(d, available).weights
      == if last == "" then front else if front == "" then last else front + " " + last
  {
    var init, app, weights := AllButLast(d).spec.apps, LastApp(d), GatewayWeights(d.spec);
    WeightEntriesOfOne(app, weights);
    WeightsJoined(init, app, weights);
    assert WeightEntries(d.spec.apps, weights) == WeightEntries(init, weights) + WeightEntries([app], weights);
  }

  lemma WeightsJoined(init: seq<App>, app: App, weights: map<string, int32>)
    ensures var front, last := WeightEntries(init, weights), WeightEntries([app], weights);
      Join(front + last, " ")
      == if Join(last, " ") == "" then Join(front, " ") else if Join(front, " ") == "" then Join(last, " ")
         else Join(front, " ") + " " + Join(last, " ")
  {
    var front := WeightEntries(init, weights);
    WeightEntriesOfOne(app, weights);
    ListedWeightsShow(init, weights);
    if app.version in weights {
      JoinTurn(front, WeightEntry(app.version, weights[app.version]));
      JoinOne(WeightEntry(app.version, weights[app.version]));
    } else {
      assert front + [] == front;
    }
  }

  /** The prefix is the one that requests need: none without a gateway, the name of the Plus when the gateway sets
      none. */
  lemma PrefixIsShown(d: Design, available: map<string, int32>)
    ensures var shown := StatusDesc(d, available).prefixPath;
      match d.spec.gateway
      case None => shown == ""
      case Some(g) => if g.pathPrefix.None? then shown == "/" + d.name else shown == "" || shown[0] == '/'
  {
    PrefixPathIsEmptyOrRooted(d);
  }
}
