/** The survey's GeoJSON builder: looks up each survey region's feature in a
    GeoJSON FeatureCollection of US states, renames some states, and merges the
    members of every state cluster into one MultiPolygon feature.

    Geometry follows RFC 7946: a Polygon is a list of linear rings (section
    3.1.6), a MultiPolygon a list of Polygon coordinate arrays (section 3.1.7),
    and the result is a FeatureCollection (section 3.3).

    Python's feature dicts are mutable and shared: the output list holds
    references into `state_info_map`, so a later change to a feature shows in
    the output too. After the rename loop every feature object sits under
    exactly one key, so the model names each object by its key: the map is
    updated key by key and the output is the list of KEYS, read from the final
    map at the end. */
module SurveyGeoJson {
  import opened Wrappers
  import opened Text
  import opened SurveyData
  import Seqs

  type Position = seq<real>
  type Ring = seq<Position>
  type PolygonCoords = seq<Ring>

  datatype Geometry =
    | Polygon(rings: PolygonCoords)
    | MultiPolygon(polygons: seq<PolygonCoords>)

  /** A state feature; `id` and `density` are `None` when the key is absent. */
  datatype Feature = Feature(id: Option<string>, name: string, density: Option<real>, geometry: Geometry)

  datatype FeatureCollection = FeatureCollection(features: seq<Feature>)

  /** `KeyError(key)` for a missing dict key; `ParseError(region)` is the
      RuntimeError raised for a cluster region the pattern does not match. */
  datatype Error = KeyError(key: string) | ParseError(region: string)

  type FeatureMap = map<string, Feature>

  /** The polygons a geometry contributes to a MultiPolygon. */
  function Polygons(g: Geometry): (ps: seq<PolygonCoords>)
    ensures g.Polygon? ==> ps == [g.rings]
    ensures g.MultiPolygon? ==> ps == g.polygons
  {
    match g
    case Polygon(rings) => [rings]
    case MultiPolygon(polygons) => polygons
  }

  // ---------------------------------------------------------------------------
  // The lookup map and the renames
  // ---------------------------------------------------------------------------

  /** `{f["properties"]["name"]: f for f in features}`. */
  function IndexByName(fs: seq<Feature>): (m: FeatureMap)
    ensures forall i :: 0 <= i < |fs| ==> fs[i].name in m
    ensures forall k :: k in m ==> m[k].name == k && m[k] in fs
    decreases |fs|
  {
    if |fs| == 0 then map[]
    else
      var last := fs[|fs| - 1];
      var m := IndexByName(fs[..|fs| - 1]);
      m[last.name := last]
  }

  /** A later feature with the same name replaces an earlier one. */
  lemma {:induction false} IndexByNameLastWins(fs: seq<Feature>, i: nat)
    requires i < |fs| && forall j :: i < j < |fs| ==> fs[j].name != fs[i].name
    ensures IndexByName(fs)[fs[i].name] == fs[i]
    decreases |fs|
  {
    if i < |fs| - 1 {
      IndexByNameLastWins(fs[..|fs| - 1], i);
    }
  }

  /** `m[new] = m.pop(old)`. */
  function Rename(m: FeatureMap, oldName: string, newName: string): (r: Result<FeatureMap, Error>)
    ensures r.Failure? <==> oldName !in m
    ensures r.Failure? ==> r.error == KeyError(oldName)
    ensures r.Success? ==> newName in r.value && r.value[newName] == m[oldName]
    ensures r.Success? && oldName != newName ==> oldName !in r.value
    ensures r.Success? ==> forall k :: k != oldName && k != newName ==> (k in r.value <==> k in m)
    ensures r.Success? ==> forall k :: k != oldName && k != newName && k in m ==> r.value[k] == m[k]
  {
    if oldName !in m then Failure(KeyError(oldName))
    else Success((m - {oldName})[newName := m[oldName]])
  }

  /** The rename loop over the custom name map's items, in insertion order. */
  function ApplyRenames(m: FeatureMap, renames: seq<(string, string)>): Result<FeatureMap, Error>
    decreases |renames|
  {
    if |renames| == 0 then Success(m)
    else
      var m' :- ApplyRenames(m, renames[..|renames| - 1]);
      Rename(m', renames[|renames| - 1].0, renames[|renames| - 1].1)
  }

  lemma {:induction false} ApplyRenamesFailure(m: FeatureMap, renames: seq<(string, string)>, i: nat)
    requires i <= |renames| && ApplyRenames(m, renames[..i]).Failure?
    ensures ApplyRenames(m, renames) == ApplyRenames(m, renames[..i])
    decreases |renames|
  {
    if i < |renames| {
      assert renames[..|renames| - 1][..i] == renames[..i];
      ApplyRenamesFailure(m, renames[..|renames| - 1], i);
    } else {
      assert renames[..i] == renames;
    }
  }

  // ---------------------------------------------------------------------------
  // Clusters and single states
  // ---------------------------------------------------------------------------

  /** `[s for s in labels if "Cluster" in s]`. */
  function Clusters(labels: seq<string>): (cs: seq<string>)
    ensures forall c :: c in cs ==> c in labels && IsCluster(c)
    decreases |labels|
  {
    if |labels| == 0 then []
    else
      var last := labels[|labels| - 1];
      Clusters(labels[..|labels| - 1]) + (if IsCluster(last) then [last] else [])
  }

  /** `[s for s in labels if s not in clusters]`. */
  function SinglesAgainst(labels: seq<string>, clusters: seq<string>): (ss: seq<string>)
    ensures forall s :: s in ss ==> s in labels && s !in clusters
    decreases |labels|
  {
    if |labels| == 0 then []
    else
      var last := labels[|labels| - 1];
      SinglesAgainst(labels[..|labels| - 1], clusters) + (if last !in clusters then [last] else [])
  }

  function Singles(labels: seq<string>): seq<string> {
    SinglesAgainst(labels, Clusters(labels))
  }

  /** Labels without "Cluster", in input order: the reference definition of the
      single states. */
  function NonClusters(labels: seq<string>): (ns: seq<string>)
    ensures forall s :: s in ns ==> !IsCluster(s)
    decreases |labels|
  {
    if |labels| == 0 then []
    else
      var last := labels[|labels| - 1];
      NonClusters(labels[..|labels| - 1]) + (if !IsCluster(last) then [last] else [])
  }

  lemma {:induction false} ClusterMembership(labels: seq<string>, x: string)
    ensures x in Clusters(labels) <==> x in labels && IsCluster(x)
    decreases |labels|
  {
    if |labels| > 0 {
      ClusterMembership(labels[..|labels| - 1], x);
      assert labels == labels[..|labels| - 1] + [labels[|labels| - 1]];
    }
  }

  lemma {:induction false} SinglesAgainstNonClusters(labels: seq<string>, all: seq<string>)
    requires forall i :: 0 <= i < |labels| ==> (labels[i] in Clusters(all) <==> IsCluster(labels[i]))
    ensures SinglesAgainst(labels, Clusters(all)) == NonClusters(labels)
    decreases |labels|
  {
    if |labels| > 0 {
      SinglesAgainstNonClusters(labels[..|labels| - 1], all);
    }
  }

  /** Testing membership in the cluster list is the same as testing the region
      itself: the single states are exactly the labels without "Cluster". */
  lemma SinglesAreNonClusters(labels: seq<string>)
    ensures Singles(labels) == NonClusters(labels)
  {
    forall i | 0 <= i < |labels| ensures labels[i] in Clusters(labels) <==> IsCluster(labels[i]) {
      ClusterMembership(labels, labels[i]);
    }
    SinglesAgainstNonClusters(labels, labels);
  }

  /** Every region lands in exactly one of the two lists. */
  lemma {:induction false} ClusterPartition(labels: seq<string>)
    ensures |Clusters(labels)| + |NonClusters(labels)| == |labels|
    ensures multiset(Clusters(labels)) + multiset(NonClusters(labels)) == multiset(labels)
    decreases |labels|
  {
    if |labels| > 0 {
      var init := labels[..|labels| - 1];
      var last := labels[|labels| - 1];
      ClusterPartition(init);
      var c, n := Clusters(init), NonClusters(init);
      Seqs.PartitionSnoc(c, n, labels);
      if IsCluster(last) {
        assert Clusters(labels) == c + [last] && NonClusters(labels) == n;
      } else {
        assert Clusters(labels) == c && NonClusters(labels) == n + [last];
      }
    }
  }

  /** The singles and the clusters together hold every input region once. */
  lemma SurveyPartition(labels: seq<string>)
    ensures |Singles(labels)| + |Clusters(labels)| == |labels|
    ensures multiset(Singles(labels)) + multiset(Clusters(labels)) == multiset(labels)
    ensures forall s :: s in Singles(labels) ==> !IsCluster(s)
    ensures forall c :: c in Clusters(labels) ==> IsCluster(c)
  {
    SinglesAreNonClusters(labels);
    ClusterPartition(labels);
  }

  // ---------------------------------------------------------------------------
  // Cluster labels
  // ---------------------------------------------------------------------------

  const ClusterTag: string := " (Cluster"

  /** `re.search("(.*) \\(Cluster", ...)` over the lines of a region: `.` stops
      at a line break, so the first line holding the tag matches, and the
      greedy `.*` captures that line up to the tag's LAST occurrence. */
  function MatchPrefix(lines: seq<string>): (r: Option<string>)
    ensures r.None? <==> forall l :: l in lines ==> RFind(l, ClusterTag).None?
    decreases |lines|
  {
    if |lines| == 0 then None
    else
      match RFind(lines[0], ClusterTag)
      case Some(i) => Some(lines[0][..i])
      case None => MatchPrefix(lines[1..])
  }

  /** The member states of a cluster region: the captured prefix split on ", ". */
  function ClusterMembers(region: string): (r: Result<seq<string>, Error>)
    ensures r.Failure? ==> r.error == ParseError(region)
    ensures r.Success? ==> |r.value| >= 1
  {
    match MatchPrefix(Split(region, "\n"))
    case None => Failure(ParseError(region))
    case Some(prefix) => Success(Split(prefix, ", "))
  }

  /** On a one-line region the pattern fails exactly when the region lacks
      " (Cluster"; otherwise the members, joined back with ", ", are the text
      before the tag's last occurrence. */
  lemma ClusterMembersOneLine(region: string)
    requires '\n' !in region
    ensures ClusterMembers(region).Failure? <==> !Contains(region, ClusterTag)
    ensures ClusterMembers(region).Success? ==>
      RFind(region, ClusterTag).Some? &&
      (var members := ClusterMembers(region).value;
       var i := RFind(region, ClusterTag).value;
       Join(members, ", ") == region[..i] && OccursAt(region, ClusterTag, i))
  {
    NoCharNoOccurrence(region, '\n');
    SplitWithoutSeparator(region, "\n");
    ContainsFind(region, ClusterTag);
    assert Split(region, "\n") == [region];
    if Contains(region, ClusterTag) {
      var i := Find(region, ClusterTag).value;
      assert OccursAt(region, ClusterTag, i);
      assert RFind(region, ClusterTag).Some?;
      JoinSplit(region[..RFind(region, ClusterTag).value], ", ");
    }
  }

  // ---------------------------------------------------------------------------
  // Building the features
  // ---------------------------------------------------------------------------

  /** A single state: set `id`, then `del properties["density"]`. */
  function AddSingle(m: FeatureMap, s: string): (r: Result<FeatureMap, Error>)
    ensures r.Failure? <==> s !in m || m[s].density.None?
    ensures r.Success? ==> r.value.Keys == m.Keys
    ensures r.Success? ==> r.value[s] == m[s].(id := Some(s), density := None)
    ensures r.Success? ==> forall k :: k in m && k != s ==> r.value[k] == m[k]
  {
    if s !in m then Failure(KeyError(s))
    else if m[s].density.None? then Failure(KeyError("density"))
    else Success(m[s := m[s].(id := Some(s), density := None)])
  }

  function AddSingles(m: FeatureMap, ss: seq<string>): (r: Result<FeatureMap, Error>)
    ensures r.Success? ==> r.value.Keys == m.Keys && forall i :: 0 <= i < |ss| ==> ss[i] in m
    decreases |ss|
  {
    if |ss| == 0 then Success(m)
    else
      var m' :- AddSingles(m, ss[..|ss| - 1]);
      AddSingle(m', ss[|ss| - 1])
  }

  lemma {:induction false} AddSinglesFailure(m: FeatureMap, ss: seq<string>, i: nat)
    requires i <= |ss| && AddSingles(m, ss[..i]).Failure?
    ensures AddSingles(m, ss) == AddSingles(m, ss[..i])
    decreases |ss|
  {
    if i < |ss| {
      assert ss[..|ss| - 1][..i] == ss[..i];
      AddSinglesFailure(m, ss[..|ss| - 1], i);
    } else {
      assert ss[..i] == ss;
    }
  }

  /** The first member becomes the cluster's feature: named and identified by
      the cluster region, its Polygon wrapped into a one-polygon MultiPolygon. */
  function ClusterHead(f: Feature, region: string): (h: Feature)
    ensures h.name == region && h.id == Some(region) && h.density == f.density
    ensures h.geometry == MultiPolygon(Polygons(f.geometry))
  {
    var g := match f.geometry
      case Polygon(rings) => MultiPolygon([rings])
      case MultiPolygon(_) => f.geometry;
    f.(name := region, id := Some(region), geometry := g)
  }

  /** The loop over the later members: each one's coordinates extend the head's
      polygon list, a Polygon as one polygon and a MultiPolygon as all of its. */
  function ExtendCluster(m: FeatureMap, head: string, rest: seq<string>): (r: Result<FeatureMap, Error>)
    requires head in m && m[head].geometry.MultiPolygon?
    ensures r.Failure? <==> exists i :: 0 <= i < |rest| && rest[i] !in m
    ensures r.Success? ==> r.value.Keys == m.Keys && r.value[head].geometry.MultiPolygon?
    ensures r.Success? ==> r.value[head] == m[head].(geometry := r.value[head].geometry)
    ensures r.Success? ==> forall k :: k in m && k != head ==> r.value[k] == m[k]
    decreases |rest|
  {
    if |rest| == 0 then Success(m)
    else
      var m' :- ExtendCluster(m, head, rest[..|rest| - 1]);
      var s := rest[|rest| - 1];
      if s !in m' then Failure(KeyError(s))
      else
        var h := m'[head];
        Success(m'[head := h.(geometry := MultiPolygon(h.geometry.polygons + Polygons(m'[s].geometry)))])
  }

  lemma {:induction false} ExtendClusterFailure(m: FeatureMap, head: string, rest: seq<string>, i: nat)
    requires head in m && m[head].geometry.MultiPolygon?
    requires i <= |rest| && ExtendCluster(m, head, rest[..i]).Failure?
    ensures ExtendCluster(m, head, rest) == ExtendCluster(m, head, rest[..i])
    decreases |rest|
  {
    if i < |rest| {
      assert rest[..|rest| - 1][..i] == rest[..i];
      ExtendClusterFailure(m, head, rest[..|rest| - 1], i);
    } else {
      assert rest[..i] == rest;
    }
  }

  /** One cluster: parse, take the head, extend it, `del properties["density"]`.
      The result also names the key of the feature to append. */
  function AddCluster(m: FeatureMap, region: string): (r: Result<(FeatureMap, string), Error>)
    ensures r.Success? ==> r.value.0.Keys == m.Keys && r.value.1 in m
    ensures r.Success? ==> ClusterMembers(region).Success? && r.value.1 == ClusterMembers(region).value[0]
    ensures r.Success? ==> m[r.value.1].density.Some?
    ensures r.Success? ==> var f := r.value.0[r.value.1];
      f.id == Some(region) && f.name == region && f.density.None? && f.geometry.MultiPolygon?
    ensures r.Success? ==> forall k :: k in m && k != r.value.1 ==> r.value.0[k] == m[k]
  {
    var members :- ClusterMembers(region);
    var head := members[0];
    if head !in m then Failure(KeyError(head))
    else
      var m1 := m[head := ClusterHead(m[head], region)];
      var m2 :- ExtendCluster(m1, head, members[1..]);
      if m2[head].density.None? then Failure(KeyError("density"))
      else Success((m2[head := m2[head].(density := None)], head))
  }

  function AddClusters(m: FeatureMap, cs: seq<string>): (r: Result<(FeatureMap, seq<string>), Error>)
    ensures r.Success? ==> r.value.0.Keys == m.Keys && |r.value.1| == |cs|
    ensures r.Success? ==> forall i :: 0 <= i < |r.value.1| ==> r.value.1[i] in m
    decreases |cs|
  {
    if |cs| == 0 then Success((m, []))
    else
      var acc :- AddClusters(m, cs[..|cs| - 1]);
      var step :- AddCluster(acc.0, cs[|cs| - 1]);
      Success((step.0, acc.1 + [step.1]))
  }

  lemma {:induction false} AddClustersFailure(m: FeatureMap, cs: seq<string>, i: nat)
    requires i <= |cs| && AddClusters(m, cs[..i]).Failure?
    ensures AddClusters(m, cs) == AddClusters(m, cs[..i])
    decreases |cs|
  {
    if i < |cs| {
      assert cs[..|cs| - 1][..i] == cs[..i];
      AddClustersFailure(m, cs[..|cs| - 1], i);
    } else {
      assert cs[..i] == cs;
    }
  }

  /** The whole function, file I/O aside: the input features, the renames and
      the survey's region labels give the FeatureCollection or the exception. */
  function SurveyGeoJson(labels: seq<string>, features: seq<Feature>, renames: seq<(string, string)>): Result<FeatureCollection, Error>
  {
    var m1 :- ApplyRenames(IndexByName(features), renames);
    var singles := Singles(labels);
    var m2 :- AddSingles(m1, singles);
    var r :- AddClusters(m2, Clusters(labels));
    var keys := singles + r.1;
    Success(FeatureCollection(seq(|keys|, i requires 0 <= i < |keys| => r.0[keys[i]])))
  }

  // ---------------------------------------------------------------------------
  // What the output holds
  // ---------------------------------------------------------------------------

  /** The features under `keys` have had their density deleted and carry the
      matching `ids`. */
  ghost predicate Tagged(m: FeatureMap, keys: seq<string>, ids: seq<string>) {
    |keys| == |ids| &&
    forall i :: 0 <= i < |keys| ==> keys[i] in m && m[keys[i]].density.None? && m[keys[i]].id == Some(ids[i])
  }

  ghost predicate Named(m: FeatureMap, keys: seq<string>, names: seq<string>) {
    |keys| == |names| && forall i :: 0 <= i < |keys| ==> keys[i] in m && m[keys[i]].name == names[i]
  }

  lemma {:induction false} AddSinglesTagged(m: FeatureMap, ss: seq<string>)
    requires AddSingles(m, ss).Success?
    ensures Tagged(AddSingles(m, ss).value, ss, ss)
    decreases |ss|
  {
    if |ss| > 0 {
      var init := ss[..|ss| - 1];
      var last := ss[|ss| - 1];
      AddSinglesTagged(m, init);
      var m' := AddSingles(m, init).value;
      assert AddSingle(m', last).Success?;
      forall j | 0 <= j < |init| ensures init[j] != last {
        assert m'[init[j]].density.None?;
      }
      assert ss == init + [last];
    }
  }

  /** Processing one cluster leaves the features already processed alone: the
      cluster's head still had its density, so it is none of them. */
  lemma AddClusterTagged(m: FeatureMap, region: string, keys: seq<string>, ids: seq<string>, cks: seq<string>, names: seq<string>)
    requires Tagged(m, keys, ids) && Named(m, cks, names) && AddCluster(m, region).Success?
    requires forall i :: 0 <= i < |cks| ==> cks[i] in keys
    ensures var step := AddCluster(m, region).value;
      Tagged(step.0, keys + [step.1], ids + [region]) && Named(step.0, cks + [step.1], names + [region])
  {
    var step := AddCluster(m, region).value;
    forall i | 0 <= i < |keys| ensures keys[i] != step.1 {
      assert m[keys[i]].density.None?;
    }
    forall i | 0 <= i < |cks| ensures cks[i] != step.1 {
      assert cks[i] in keys;
    }
  }

  lemma {:induction false} AddClustersTagged(m: FeatureMap, cs: seq<string>, keys: seq<string>, ids: seq<string>)
    requires Tagged(m, keys, ids) && AddClusters(m, cs).Success?
    ensures Tagged(AddClusters(m, cs).value.0, keys + AddClusters(m, cs).value.1, ids + cs)
    ensures Named(AddClusters(m, cs).value.0, AddClusters(m, cs).value.1, cs)
    decreases |cs|
  {
    if |cs| > 0 {
      var init := cs[..|cs| - 1];
      var last := cs[|cs| - 1];
      AddClustersTagged(m, init, keys, ids);
      var acc := AddClusters(m, init).value;
      AddClusterTagged(acc.0, last, keys + acc.1, ids + init, acc.1, init);
      var step := AddCluster(acc.0, last).value;
      assert AddClusters(m, cs).value == (step.0, acc.1 + [step.1]);
      Seqs.Snoc(cs);
      Seqs.AppendSnoc(keys, acc.1, step.1);
      Seqs.AppendSnoc(ids, init, last);
    }
  }

  /** On success the collection has one feature per input label: the single
      states first, in input order, each with `id` set to the state; then one
      feature per cluster, in input order, whose `id` and `name` are the cluster
      label. No output feature keeps a density. */
  lemma SurveyGeoJsonFeatures(labels: seq<string>, features: seq<Feature>, renames: seq<(string, string)>)
    requires SurveyGeoJson(labels, features, renames).Success?
    ensures |SurveyGeoJson(labels, features, renames).value.features| == |labels|
    ensures Layout(SurveyGeoJson(labels, features, renames).value.features, Singles(labels), Clusters(labels))
  {
    var m1 := ApplyRenames(IndexByName(features), renames).value;
    var singles := Singles(labels);
    var clusters := Clusters(labels);
    var m2 := AddSingles(m1, singles).value;
    var r := AddClusters(m2, clusters).value;
    AddSinglesTagged(m1, singles);
    AddClustersTagged(m2, clusters, singles, singles);
    SurveyPartition(labels);
    var keys := singles + r.1;
    assert SurveyGeoJson(labels, features, renames).value.features
      == seq(|keys|, i requires 0 <= i < |keys| => r.0[keys[i]]);
    GatheredFeatures(r.0, singles, r.1, clusters);
  }

  /** The output layout: the single states first, each with `id` set to the
      state; then one feature per cluster whose `id` and `name` are the cluster
      label; no feature keeps a density. */
  ghost predicate Layout(fs: seq<Feature>, singles: seq<string>, clusters: seq<string>) {
    && |fs| == |singles| + |clusters|
    && (forall i :: 0 <= i < |fs| ==> fs[i].density.None?)
    && (forall i :: 0 <= i < |singles| ==> fs[i].id == Some(singles[i]))
    && (forall j :: 0 <= j < |clusters| ==>
          fs[|singles| + j].id == Some(clusters[j]) && fs[|singles| + j].name == clusters[j])
  }

  /** Reading the tagged and named features back in key order. */
  lemma GatheredFeatures(m: FeatureMap, singles: seq<string>, cks: seq<string>, clusters: seq<string>)
    requires Tagged(m, singles + cks, singles + clusters) && Named(m, cks, clusters)
    ensures var keys := singles + cks;
      Layout(seq(|keys|, i requires 0 <= i < |keys| => m[keys[i]]), singles, clusters)
  {
    var keys := singles + cks;
    var ids := singles + clusters;
    forall i | 0 <= i < |singles| ensures keys[i] == singles[i] && ids[i] == singles[i] { }
    forall j | 0 <= j < |clusters|
      ensures keys[|singles| + j] == cks[j] && ids[|singles| + j] == clusters[j]
    { }
  }

  /** The polygons of the members, concatenated in member order. */
  function MemberPolygons(m: FeatureMap, ss: seq<string>): (ps: seq<PolygonCoords>)
    requires forall i :: 0 <= i < |ss| ==> ss[i] in m
    ensures |ps| == PolygonCount(m, ss)
    decreases |ss|
  {
    if |ss| == 0 then [] else Polygons(m[ss[0]].geometry) + MemberPolygons(m, ss[1..])
  }

  /** How many polygons the members contribute: one per Polygon, all of a
      MultiPolygon's. */
  function PolygonCount(m: FeatureMap, ss: seq<string>): nat
    requires forall i :: 0 <= i < |ss| ==> ss[i] in m
    decreases |ss|
  {
    if |ss| == 0 then 0
    else (if m[ss[0]].geometry.Polygon? then 1 else |m[ss[0]].geometry.polygons|) + PolygonCount(m, ss[1..])
  }

  lemma {:induction false} MemberPolygonsSnoc(m: FeatureMap, ss: seq<string>, s: string)
    requires forall i :: 0 <= i < |ss| ==> ss[i] in m
    requires s in m
    ensures MemberPolygons(m, ss + [s]) == MemberPolygons(m, ss) + Polygons(m[s].geometry)
    decreases |ss|
  {
    if |ss| > 0 {
      assert (ss + [s])[1..] == ss[1..] + [s];
      MemberPolygonsSnoc(m, ss[1..], s);
    } else {
      assert ss + [s] == [s];
    }
  }

  lemma {:induction false} MemberPolygonsFrame(m: FeatureMap, m': FeatureMap, ss: seq<string>)
    requires forall i :: 0 <= i < |ss| ==> ss[i] in m && ss[i] in m' && m'[ss[i]] == m[ss[i]]
    ensures MemberPolygons(m', ss) == MemberPolygons(m, ss)
    decreases |ss|
  {
    if |ss| > 0 {
      MemberPolygonsFrame(m, m', ss[1..]);
    }
  }

  lemma {:induction false} ExtendClusterGeometry(m: FeatureMap, head: string, rest: seq<string>)
    requires head in m && m[head].geometry.MultiPolygon?
    requires head !in rest && ExtendCluster(m, head, rest).Success?
    ensures forall i :: 0 <= i < |rest| ==> rest[i] in m
    ensures ExtendCluster(m, head, rest).value[head].geometry
      == MultiPolygon(m[head].geometry.polygons + MemberPolygons(m, rest))
    decreases |rest|
  {
    if |rest| == 0 {
      assert m[head].geometry.polygons + [] == m[head].geometry.polygons;
    } else {
      var init := rest[..|rest| - 1];
      var s := rest[|rest| - 1];
      ExtendClusterGeometry(m, head, init);
      var m' := ExtendCluster(m, head, init).value;
      assert s != head && s in m;
      var ps := m'[head].geometry.polygons + Polygons(m'[s].geometry);
      assert ExtendCluster(m, head, rest).value[head].geometry == MultiPolygon(ps);
      Seqs.Snoc(rest);
      MemberPolygonsSnoc(m, init, s);
      Seqs.AppendAssoc(m[head].geometry.polygons, MemberPolygons(m, init), Polygons(m[s].geometry));
    }
  }

  /** A cluster's geometry is a MultiPolygon listing its members' polygons in
      member order, so it holds as many polygons as the members contribute
      (when the head is not listed again among the later members, which would
      make it extend itself). */
  lemma AddClusterGeometry(m: FeatureMap, region: string)
    requires AddCluster(m, region).Success?
    requires var members := ClusterMembers(region).value; members[0] !in members[1..]
    ensures var members := ClusterMembers(region).value;
      && (forall i :: 0 <= i < |members| ==> members[i] in m)
      && var g := AddCluster(m, region).value.0[members[0]].geometry;
      && g == MultiPolygon(MemberPolygons(m, members))
      && |g.polygons| == PolygonCount(m, members)
  {
    var members := ClusterMembers(region).value;
    var head := members[0];
    var m1 := m[head := ClusterHead(m[head], region)];
    var rest := members[1..];
    ExtendClusterGeometry(m1, head, rest);
    MemberPolygonsFrame(m, m1, rest);
    assert members == [head] + rest;
  }

  // ---------------------------------------------------------------------------
  // The procedure
  // ---------------------------------------------------------------------------

  /** The dict comprehension over the input features. */
  method BuildIndex(features: seq<Feature>) returns (m: FeatureMap)
    ensures m == IndexByName(features)
  {
    m := map[];
    for i := 0 to |features|
      invariant m == IndexByName(features[..i])
    {
      assert features[..i + 1][..i] == features[..i];
      m := m[features[i].name := features[i]];
    }
    assert features[..|features|] == features;
  }

  /** The rename loop: pop the old name, store under the new one. */
  method RenameAll(m0: FeatureMap, renames: seq<(string, string)>) returns (r: Result<FeatureMap, Error>)
    ensures r == ApplyRenames(m0, renames)
  {
    var m := m0;
    for i := 0 to |renames|
      invariant ApplyRenames(m0, renames[..i]) == Success(m)
    {
      assert renames[..i + 1][..i] == renames[..i];
      var (oldName, newName) := renames[i];
      if oldName !in m {
        ApplyRenamesFailure(m0, renames, i + 1);
        return Failure(KeyError(oldName));
      }
      var f := m[oldName];
      m := m - {oldName};
      m := m[newName := f];
    }
    assert renames[..|renames|] == renames;
    return Success(m);
  }

  /** The two list comprehensions that split the labels. */
  method SplitRegions(labels: seq<string>) returns (clusters: seq<string>, singles: seq<string>)
    ensures clusters == Clusters(labels) && singles == Singles(labels)
  {
    clusters := [];
    for i := 0 to |labels|
      invariant clusters == Clusters(labels[..i])
    {
      assert labels[..i + 1][..i] == labels[..i];
      if IsCluster(labels[i]) {
        clusters := clusters + [labels[i]];
      }
    }
    assert labels[..|labels|] == labels;
    singles := [];
    for i := 0 to |labels|
      invariant singles == SinglesAgainst(labels[..i], clusters)
    {
      assert labels[..i + 1][..i] == labels[..i];
      if labels[i] !in clusters {
        singles := singles + [labels[i]];
      }
    }
  }

  /** The loop over single states. */
  method AddSingleStates(m0: FeatureMap, singles: seq<string>) returns (r: Result<FeatureMap, Error>)
    ensures r == AddSingles(m0, singles)
  {
    var m := m0;
    for i := 0 to |singles|
      invariant AddSingles(m0, singles[..i]) == Success(m)
    {
      assert singles[..i + 1][..i] == singles[..i];
      var s := singles[i];
      if s !in m {
        AddSinglesFailure(m0, singles, i + 1);
        return Failure(KeyError(s));
      }
      var info := m[s].(id := Some(s));
      if info.density.None? {
        AddSinglesFailure(m0, singles, i + 1);
        return Failure(KeyError("density"));
      }
      m := m[s := info.(density := None)];
    }
    assert singles[..|singles|] == singles;
    return Success(m);
  }

  /** The body of the loop over clusters: the head, then the later members. */
  method AddOneCluster(m0: FeatureMap, cluster: string) returns (r: Result<(FeatureMap, string), Error>)
    ensures r == AddCluster(m0, cluster)
  {
    var parsed := ClusterMembers(cluster);
    if parsed.Failure? {
      return Failure(parsed.error);
    }
    var members := parsed.value;
    var head := members[0];
    if head !in m0 {
      return Failure(KeyError(head));
    }
    var start := m0[head := ClusterHead(m0[head], cluster)];
    var extended := ExtendHead(start, head, members[1..]);
    if extended.Failure? {
      return Failure(extended.error);
    }
    var m := extended.value;
    if m[head].density.None? {
      return Failure(KeyError("density"));
    }
    m := m[head := m[head].(density := None)];
    return Success((m, head));
  }

  /** The inner loop over the later members of one cluster. */
  method ExtendHead(m0: FeatureMap, head: string, rest: seq<string>) returns (r: Result<FeatureMap, Error>)
    requires head in m0 && m0[head].geometry.MultiPolygon?
    ensures r == ExtendCluster(m0, head, rest)
  {
    var m := m0;
    for j := 0 to |rest|
      invariant head in m && m[head].geometry.MultiPolygon?
      invariant ExtendCluster(m0, head, rest[..j]) == Success(m)
    {
      assert rest[..j + 1][..j] == rest[..j];
      var s := rest[j];
      if s !in m {
        ExtendClusterFailure(m0, head, rest, j + 1);
        return Failure(KeyError(s));
      }
      var h := m[head];
      m := m[head := h.(geometry := MultiPolygon(h.geometry.polygons + Polygons(m[s].geometry)))];
    }
    assert rest[..|rest|] == rest;
    return Success(m);
  }

  /** The loop over clusters; the key of each appended feature stands for the
      reference the source appends. */
  method AddAllClusters(m0: FeatureMap, clusters: seq<string>) returns (r: Result<(FeatureMap, seq<string>), Error>)
    ensures r == AddClusters(m0, clusters)
  {
    var m := m0;
    var keys: seq<string> := [];
    for i := 0 to |clusters|
      invariant AddClusters(m0, clusters[..i]) == Success((m, keys))
    {
      assert clusters[..i + 1][..i] == clusters[..i];
      var step := AddOneCluster(m, clusters[i]);
      if step.Failure? {
        AddClustersFailure(m0, clusters, i + 1);
        return Failure(step.error);
      }
      m := step.value.0;
      keys := keys + [step.value.1];
    }
    assert clusters[..|clusters|] == clusters;
    return Success((m, keys));
  }

  /** Reads every appended reference in the final state of the features. */
  method Collect(m: FeatureMap, keys: seq<string>) returns (out: seq<Feature>)
    requires forall i :: 0 <= i < |keys| ==> keys[i] in m
    ensures out == seq(|keys|, i requires 0 <= i < |keys| => m[keys[i]])
  {
    out := [];
    for i := 0 to |keys|
      invariant |out| == i
      invariant forall j :: 0 <= j < i ==> out[j] == m[keys[j]]
    {
      out := out + [m[keys[i]]];
    }
  }

  /** `create_survey_geojson`, step by step as the source runs it. */
  method CreateSurveyGeoJson(labels: seq<string>, features: seq<Feature>, renames: seq<(string, string)>)
    returns (r: Result<FeatureCollection, Error>)
    ensures r == SurveyGeoJson(labels, features, renames)
  {
    var m0 := BuildIndex(features);
    var renamed := RenameAll(m0, renames);
    if renamed.Failure? {
      return Failure(renamed.error);
    }
    var clusters, singles := SplitRegions(labels);
    var afterSingles := AddSingleStates(renamed.value, singles);
    if afterSingles.Failure? {
      return Failure(afterSingles.error);
    }
    var afterClusters := AddAllClusters(afterSingles.value, clusters);
    if afterClusters.Failure? {
      return Failure(afterClusters.error);
    }
    var keys := singles + afterClusters.value.1;
    var out := Collect(afterClusters.value.0, keys);
    r := Success(FeatureCollection(out));
  }
}
