/** What the training script hands to serving besides the fitted estimators:
    the cluster-name map, written as JSON so that its integer keys come back
    as their decimal texts, and the metadata record, whose feature-name list
    is the continuous-feature list of the feature code. */
module Training {
  import opened Values
  import opened Decimal
  import Preprocessing

  /** The default cluster count and PCA dimension of the training job. */
  const DefaultNClusters := 3
  const DefaultNComponents := 1
  const ModelVersion := "1.0"

  /** `json.dump` of an int-keyed map followed by `json.load`: every key is
      now the text `str(k)`, and no two keys collide. */
  function PersistClusterNames(m: map<int, string>): (r: map<string, string>)
    ensures forall k :: k in m ==> IntToString(k) in r && r[IntToString(k)] == m[k]
    ensures forall s :: s in r ==> exists k :: k in m && IntToString(k) == s
  {
    assert forall a, b :: IntToString(a) == IntToString(b) ==> a == b by {
      forall a, b | IntToString(a) == IntToString(b) ensures a == b { Injective(a, b); }
    }
    map k | k in m :: IntToString(k) := m[k]
  }

  function Strings(ns: seq<string>): (r: seq<Value>)
    ensures |r| == |ns| && forall i :: 0 <= i < |ns| ==> r[i] == Str(ns[i])
  {
    seq(|ns|, i requires 0 <= i < |ns| => Str(ns[i]))
  }

  /** The metadata record the training script writes, field by field, with
      the three cluster-quality scores as they were measured. */
  function Metadata(nClusters: int, nComponents: int, silhouette: real, calinskiHarabasz: real,
                    daviesBouldin: real): (r: Value)
    ensures r.Obj?
    ensures Get(r.fields, "model_version") == Some(Str(ModelVersion))
    ensures Get(r.fields, "feature_names") == Some(Arr(Strings(Preprocessing.NumericalFeatures())))
  {
    var fields :=
      [ ("n_clusters", Num(nClusters as real)),
        ("n_components", Num(nComponents as real)),
        ("silhouette_score", Num(silhouette)),
        ("calinski_harabasz_score", Num(calinskiHarabasz)),
        ("davies_bouldin_score", Num(daviesBouldin)),
        ("feature_names", Arr(Strings(Preprocessing.NumericalFeatures()))),
        ("model_version", Str(ModelVersion)) ];
    assert Get(fields, "feature_names") == Get(fields[..6], "feature_names");
    assert fields[..6][5] == ("feature_names", Arr(Strings(Preprocessing.NumericalFeatures())));
    Obj(fields)
  }

  /** The names in a JSON list of strings, or None when an item is not a string. */
  function StringItems(items: seq<Value>): (r: Option<seq<string>>)
    ensures r.Some? ==> |r.value| == |items| && forall i :: 0 <= i < |items| ==> items[i] == Str(r.value[i])
  {
    if items == [] then Some([])
    else if !items[0].Str? then None
    else match StringItems(items[1..])
      case None => None
      case Some(rest) => Some([items[0].s] + rest)
  }

  lemma {:induction false} StringItemsOfStrings(ns: seq<string>)
    ensures StringItems(Strings(ns)) == Some(ns)
  {
    if ns != [] {
      assert Strings(ns)[1..] == Strings(ns[1..]);
      StringItemsOfStrings(ns[1..]);
      assert Strings(ns)[0] == Str(ns[0]);
      assert [ns[0]] + ns[1..] == ns;
    }
  }

  /** The `feature_names` list of a loaded metadata record, when it has one. */
  function FeatureNames(meta: Value): Option<seq<string>> {
    if !meta.Obj? then None
    else match Get(meta.fields, "feature_names")
      case Some(Arr(items)) => StringItems(items)
      case _ => None
  }

  /** The metadata travels with the feature list of the feature code, so a
      loaded bundle can be checked against the serving code's list. */
  lemma MetadataFeatureNames(nClusters: int, nComponents: int, s: real, ch: real, db: real)
    ensures FeatureNames(Metadata(nClusters, nComponents, s, ch, db)) == Some(Preprocessing.NumericalFeatures())
  {
    StringItemsOfStrings(Preprocessing.NumericalFeatures());
  }
}
