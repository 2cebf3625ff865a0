/** The gateway's weight check: an int32 sum over a map that is iterated in no fixed order. */
module Weights {
  import opened PlusTypes

  /** The true sum. The choice of key does not matter: SumWithout. */
  ghost function Sum(weights: map<string, int32>): int
    decreases |weights|
  {
    if weights == map[] then 0
    else
      var k :| k in weights;
      weights[k] + Sum(weights - {k})
  }

  /** Any key may be taken out first, so the sum does not depend on an iteration order. */
  lemma {:induction false} SumWithout(weights: map<string, int32>, k: string)
    requires k in weights
    ensures Sum(weights) == weights[k] + Sum(weights - {k})
    decreases |weights|
  {
    var c :| c in weights && Sum(weights) == weights[c] + Sum(weights - {c});
    if c != k {
      SumWithout(weights - {c}, k);
      SumWithout(weights - {k}, c);
      assert weights - {c} - {k} == weights - {k} - {c};
    }
  }

  /** Two's-complement truncation to 32 bits. */
  function Wrap32(n: int): int32 {
    (n + 0x8000_0000) % 0x1_0000_0000 - 0x8000_0000
  }

  /** Truncation moves a number by a multiple of 2^32. */
  lemma WrapShift(n: int) returns (q: int)
    ensures Wrap32(n) == n + q * 0x1_0000_0000
  {
    q := -((n + 0x8000_0000) / 0x1_0000_0000);
  }

  lemma CongruentWithHundred(n: int32, total: int, q: int)
    requires n == total + q * 0x1_0000_0000
    ensures n == 100 <==> total % 0x1_0000_0000 == 100
  {
    if total % 0x1_0000_0000 == 100 {
      var p := total / 0x1_0000_0000;
      assert n == 100 + (p + q) * 0x1_0000_0000;
    }
  }

  /** The weight check of PlusGateway.Validate; the loop takes the keys in any order. */
  method WeightsAddUp(weights: map<string, int32>) returns (ok: bool)
    ensures ok <==> weights == map[] || Sum(weights) % 0x1_0000_0000 == 100
  {
    if |weights| == 0 {
      return true;
    }
    var sum: int32 := 0;
    var rest := weights;
    ghost var q := 0;
    while rest != map[]
      invariant sum + Sum(rest) == Sum(weights) + q * 0x1_0000_0000
      decreases |rest|
    {
      var k :| k in rest;
      SumWithout(rest, k);
      ghost var shift := WrapShift(sum + rest[k]);
      sum := Wrap32(sum + rest[k]);
      rest, q := rest - {k}, q + shift;
    }
    CongruentWithHundred(sum, Sum(weights), q);
    return sum == 100;
  }

  /** What WeightsAddUp decides, for use in specifications. */
  ghost predicate WeightsAccepted(weights: map<string, int32>) {
    weights == map[] || Sum(weights) % 0x1_0000_0000 == 100
  }

  /** The check does not establish a true total of 100: these accepted weights sum to 2^32 + 100. */
  lemma AcceptedWeightsMayWrap()
    ensures var weights := map["a" := 0x7fff_ffff as int32, "b" := 0x7fff_ffff, "c" := 102];
      WeightsAccepted(weights) && Sum(weights) == 0x1_0000_0000 + 100
  {
    var weights := map["a" := 0x7fff_ffff as int32, "b" := 0x7fff_ffff, "c" := 102];
    SumWithout(weights, "a");
    SumWithout(weights - {"a"}, "b");
    SumWithout(weights - {"a"} - {"b"}, "c");
    assert weights - {"a"} - {"b"} - {"c"} == map[];
  }

  /** Where the true sum needs no more than 32 bits, the check is exact. */
  lemma AcceptedExactlyWithoutWrap(weights: map<string, int32>)
    requires weights != map[]
    requires 0 <= Sum(weights) < 0x1_0000_0000
    ensures WeightsAccepted(weights) <==> Sum(weights) == 100
  {
  }

  /** Summed over the apps in spec order, as the default route lists them. */
  function RouteTotal(apps: seq<App>, weights: map<string, int32>): int {
    if apps == [] then 0
    else RouteTotal(apps[..|apps| - 1], weights) + LookupInt(weights, apps[|apps| - 1].version)
  }

  function Versions(apps: seq<App>): set<string> {
    set app | app in apps :: app.version
  }

  lemma LastVersionIsNew(apps: seq<App>)
    requires DistinctVersions(apps) && apps != []
    ensures DistinctVersions(apps[..|apps| - 1])
    ensures apps[|apps| - 1].version !in Versions(apps[..|apps| - 1])
    ensures Versions(apps) == Versions(apps[..|apps| - 1]) + {apps[|apps| - 1].version}
  {
    var init, last := apps[..|apps| - 1], apps[|apps| - 1];
    assert apps == init + [last];
    forall app | app in init
      ensures app.version != last.version
    {
      var i :| 0 <= i < |init| && init[i] == app;
      assert apps[i].version != apps[|init|].version;
    }
  }

  /** With distinct versions, the default route carries all the weight except what is keyed outside the apps. */
  lemma {:induction false} RouteTotalPlusStray(apps: seq<App>, weights: map<string, int32>)
    requires DistinctVersions(apps)
    ensures RouteTotal(apps, weights) + Sum(weights - Versions(apps)) == Sum(weights)
  {
    if apps == [] {
      assert weights - Versions(apps) == weights;
    } else {
      var init, version := apps[..|apps| - 1], apps[|apps| - 1].version;
      LastVersionIsNew(apps);
      RouteTotalPlusStray(init, weights);
      var stray := weights - Versions(init);
      assert stray - {version} == weights - Versions(apps);
      if version in weights {
        SumWithout(stray, version);
      } else {
        assert stray - {version} == stray;
      }
    }
  }

  /** Absent wrap-around, an accepted gateway's default route totals 100 exactly when the stray weights cancel. */
  lemma DefaultRouteTotalsHundred(apps: seq<App>, weights: map<string, int32>)
    requires DistinctVersions(apps) && weights != map[] && WeightsAccepted(weights)
    requires 0 <= Sum(weights) < 0x1_0000_0000
    ensures RouteTotal(apps, weights) == 100 <==> Sum(weights - Versions(apps)) == 0
  {
    RouteTotalPlusStray(apps, weights);
  }
}
