/**
 * The nearest-neighbour matcher of GUI/MainForm.cs: flattening the labelled
 * users into (name, sample) pairs and extracting their features, the
 * first-minimum scan of one query against every stored template, the batch
 * comparison of a test set, and the identification of one recorded query.
 *
 * Feature extraction is a call into code this model cannot see: it is the
 * parameter `extract`, over an abstract signal type `S`.
 */
module Matcher {
  import opened Types
  import opened Costs
  import opened Dtw
  import opened DtwProperties
  import opened Repository

  // ----- flattening the labelled users -----

  /** A user of a test case: a name and the recorded samples of that user. */
  datatype User<S> = User(userName: string, userTemplates: seq<S>)

  /** One user's samples, each labelled with the user's name. */
  function Labelled<S>(u: User<S>): seq<(string, S)>
  {
    seq(|u.userTemplates|, t requires 0 <= t < |u.userTemplates| => (u.userName, u.userTemplates[t]))
  }

  /** The `SelectMany` of `FlattenDataAndExtractFeatures`: user order, then sample order, one pair per sample. */
  function Flatten<S>(data: seq<User<S>>): (pairs: seq<(string, S)>)
    ensures |pairs| == TemplateCount(data)
  {
    if data == [] then [] else Labelled(data[0]) + Flatten(data[1..])
  }

  /** The number of samples of a list of users. */
  function TemplateCount<S>(data: seq<User<S>>): nat
  {
    if data == [] then 0 else |data[0].userTemplates| + TemplateCount(data[1..])
  }

  /** Sample `t` of user `u` sits right after the samples of the users before `u`. */
  lemma {:induction false} FlattenAt<S>(data: seq<User<S>>, u: nat, t: nat)
    requires u < |data| && t < |data[u].userTemplates|
    ensures TemplateCount(data[..u]) + t < |Flatten(data)|
    ensures Flatten(data)[TemplateCount(data[..u]) + t] == (data[u].userName, data[u].userTemplates[t])
  {
    if u == 0 {
      assert data[..0] == [];
    } else {
      FlattenAt(data[1..], u - 1, t);
      assert data[..u][1..] == data[1..][..u - 1];
      assert data[..u] != [] && data[..u][0] == data[0];
    }
  }

  /** Every pair is labelled with the name of the user whose sample it holds. */
  lemma {:induction false} FlattenLabels<S>(data: seq<User<S>>)
    ensures forall k :: 0 <= k < |Flatten(data)| ==>
      exists u :: 0 <= u < |data| && Flatten(data)[k].0 == data[u].userName && Flatten(data)[k].1 in data[u].userTemplates
  {
    if data != [] {
      FlattenLabels(data[1..]);
      var head := Labelled(data[0]);
      forall k | 0 <= k < |Flatten(data)|
        ensures exists u :: 0 <= u < |data| && Flatten(data)[k].0 == data[u].userName && Flatten(data)[k].1 in data[u].userTemplates
      {
        if k < |head| {
          assert Flatten(data)[k] == head[k] == (data[0].userName, data[0].userTemplates[k]);
          assert data[0].userTemplates[k] in data[0].userTemplates;
        } else {
          assert Flatten(data)[k] == Flatten(data[1..])[k - |head|];
          var u :| 0 <= u < |data[1..]| && Flatten(data[1..])[k - |head|].0 == data[1..][u].userName
                   && Flatten(data[1..])[k - |head|].1 in data[1..][u].userTemplates;
          assert data[1..][u] == data[u + 1];
          assert Flatten(data)[k].0 == data[u + 1].userName && Flatten(data)[k].1 in data[u + 1].userTemplates;
        }
      }
    } else {
      assert |Flatten(data)| == 0;
    }
  }

  /** The labelled feature sequences of a list of users, one per sample. */
  function Extracted<S>(data: seq<User<S>>, extract: S -> Sequence): (samples: seq<Entry>)
    ensures |samples| == TemplateCount(data)
  {
    var pairs := Flatten(data);
    seq(|pairs|, i requires 0 <= i < |pairs| => Entry(pairs[i].0, extract(pairs[i].1)))
  }

  /** Sample `t` of user `u` is extracted, under that user's name, right after the samples of the users before `u`. */
  lemma ExtractedAt<S>(data: seq<User<S>>, extract: S -> Sequence, u: nat, t: nat)
    requires u < |data| && t < |data[u].userTemplates|
    ensures TemplateCount(data[..u]) + t < |Extracted(data, extract)|
    ensures Extracted(data, extract)[TemplateCount(data[..u]) + t] == Entry(data[u].userName, extract(data[u].userTemplates[t]))
  {
    FlattenAt(data, u, t);
  }

  /** `e` is the extracted features of a sample recorded by one of the users, under that user's name. */
  ghost predicate RecordedBy<S>(data: seq<User<S>>, extract: S -> Sequence, e: Entry)
  {
    exists u, s :: 0 <= u < |data| && s in data[u].userTemplates && e == Entry(data[u].userName, extract(s))
  }

  /** Every extracted sample carries the name of a user that recorded it. */
  lemma ExtractedOwners<S>(data: seq<User<S>>, extract: S -> Sequence)
    ensures forall e :: e in Extracted(data, extract) ==> RecordedBy(data, extract, e)
  {
    FlattenLabels(data);
    forall e | e in Extracted(data, extract)
      ensures RecordedBy(data, extract, e)
    {
      var k :| 0 <= k < |Extracted(data, extract)| && Extracted(data, extract)[k] == e;
      var u :| 0 <= u < |data| && Flatten(data)[k].0 == data[u].userName && Flatten(data)[k].1 in data[u].userTemplates;
      var s := Flatten(data)[k].1;
      assert e == Entry(data[u].userName, extract(s));
    }
  }

  /** `FlattenDataAndExtractFeatures`: one labelled feature sequence per sample, extracted one at a time. */
  method FlattenDataAndExtractFeatures<S>(data: seq<User<S>>, extract: S -> Sequence) returns (extracted: seq<Entry>)
    ensures |extracted| == TemplateCount(data)
    ensures extracted == Extracted(data, extract)
  {
    var dataBag := Flatten(data);
    var extractedFeatures := new Entry[|dataBag|];
    for i := 0 to |dataBag|
      invariant forall k :: 0 <= k < i ==> extractedFeatures[k] == Entry(dataBag[k].0, extract(dataBag[k].1))
    {
      extractedFeatures[i] := Entry(dataBag[i].0, extract(dataBag[i].1));
    }
    extracted := extractedFeatures[..];
    assert extracted == Extracted(data, extract);
  }

  // ----- the first-minimum scan -----

  /**
   * The index the scan settles on: a later distance replaces the current best
   * only when it is strictly smaller, and nothing is chosen while every
   * distance is +infinity (the scan starts from `double.MaxValue`).
   */
  function FirstMin(ds: seq<Cost>): (k: Option<nat>)
    ensures k.Some? ==> k.value < |ds| && ds[k.value].Fin?
  {
    if ds == [] then None
    else
      var best := FirstMin(ds[..|ds| - 1]);
      var bestDistance := if best.None? then Inf else ds[best.value];
      if Lt(ds[|ds| - 1], bestDistance) then Some(|ds| - 1) else best
  }

  /** The scan picks the first of the smallest finite distances, and nothing when all are +infinity. */
  lemma {:induction false} FirstMinIsFirstMinimum(ds: seq<Cost>)
    ensures FirstMin(ds).None? <==> forall j :: 0 <= j < |ds| ==> ds[j] == Inf
    ensures FirstMin(ds).Some? ==> forall j :: 0 <= j < |ds| ==> Le(ds[FirstMin(ds).value], ds[j])
    ensures FirstMin(ds).Some? ==> forall j :: 0 <= j < FirstMin(ds).value ==> Lt(ds[FirstMin(ds).value], ds[j])
  {
    if ds != [] {
      var front := ds[..|ds| - 1];
      FirstMinIsFirstMinimum(front);
      assert forall j :: 0 <= j < |front| ==> front[j] == ds[j];
    }
  }

  /** One more distance: it becomes the choice exactly when it is below the current best. */
  lemma FirstMinExtend(seen: seq<Cost>, d: Cost)
    ensures var best := FirstMin(seen);
      FirstMin(seen + [d]) == if Lt(d, if best.None? then Inf else seen[best.value]) then Some(|seen|) else best
  {
    var extended := seen + [d];
    assert extended != [] && extended[..|extended| - 1] == seen && extended[|extended| - 1] == d;
  }

  /** The DTW distances of a query to every candidate, with the banded overload. */
  function BandedDistances(sqrt: SquareRoot, query: Option<Sequence>, candidates: seq<Entry>, w: int): (ds: seq<Result<Cost>>)
    ensures |ds| == |candidates|
  {
    seq(|candidates|, k requires 0 <= k < |candidates| => Banded(sqrt, query, Some(candidates[k].features), w))
  }

  /** The DTW distances of a query to every candidate, with the unbanded overload. */
  function UnbandedDistances(sqrt: SquareRoot, query: Option<Sequence>, candidates: seq<Entry>): (ds: seq<Result<Cost>>)
    ensures |ds| == |candidates|
  {
    seq(|candidates|, k requires 0 <= k < |candidates| => Unbanded(sqrt, query, Some(candidates[k].features)))
  }

  predicate AnyFailure<T>(rs: seq<Result<T>>)
  {
    exists k :: 0 <= k < |rs| && rs[k].Failure?
  }

  function Values<T>(rs: seq<Result<T>>): (vs: seq<T>)
    requires !AnyFailure(rs)
    ensures |vs| == |rs|
  {
    seq(|rs|, k requires 0 <= k < |rs| => rs[k].value)
  }

  /** What the scan over the candidates yields: the owner of the first minimum, or null. */
  function Prediction(ds: seq<Result<Cost>>, owners: seq<string>): Result<Option<string>>
    requires |ds| == |owners|
  {
    if AnyFailure(ds) then Failure(ArgumentException)
    else
      match FirstMin(Values(ds))
      case None => Success(None)
      case Some(k) => Success(Some(owners[k]))
  }

  /** A failed distance makes the whole scan fail. */
  lemma ScanFails(ds: seq<Result<Cost>>, owners: seq<string>, k: nat)
    requires |ds| == |owners| && k < |ds| && ds[k].Failure?
    ensures Prediction(ds, owners) == Failure(ArgumentException)
  {
  }

  /** A scan that met no failure has seen exactly the values of the distances. */
  lemma ScanCompletes<T>(ds: seq<Result<T>>, seen: seq<T>)
    requires |seen| == |ds| && forall t :: 0 <= t < |ds| ==> ds[t] == Success(seen[t])
    ensures !AnyFailure(ds) && Values(ds) == seen
  {
  }

  /** The prediction for one test sample against the training data. */
  function PredictionFor(sqrt: SquareRoot, training: seq<Entry>, query: Option<Sequence>, w: int): Result<Option<string>>
  {
    Prediction(BandedDistances(sqrt, query, training, w), Owners(training))
  }

  /** The scan of one test sample against the training data: the body of the `Parallel.For` of `CompareTrainingWithTesting`. */
  method NearestOwner(sqrt: SquareRoot, testFeatures: Option<Sequence>, trainingData: seq<Entry>, w: int)
    returns (r: Result<Option<string>>)
    requires FitsShort(testFeatures)
    requires forall e :: e in trainingData ==> FitsShort(Some(e.features))
    ensures r == PredictionFor(sqrt, trainingData, testFeatures, w)
  {
    ghost var ds := BandedDistances(sqrt, testFeatures, trainingData, w);
    ghost var seen: seq<Cost> := [];
    var user: Option<string> := None;
    var minDistance := Inf;
    for k := 0 to |trainingData|
      invariant |seen| == k
      invariant forall t :: 0 <= t < k ==> ds[t] == Success(seen[t])
      invariant FirstMin(seen).None? ==> user.None? && minDistance == Inf
      invariant FirstMin(seen).Some? ==>
        user == Some(trainingData[FirstMin(seen).value].owner) && minDistance == seen[FirstMin(seen).value]
    {
      var trainSample := trainingData[k];
      var distance := ComputeDtwBanded(sqrt, testFeatures, Some(trainSample.features), w);
      assert distance == ds[k];
      if distance.Failure? {
        ScanFails(ds, Owners(trainingData), k);
        return Failure(distance.error);
      }
      FirstMinExtend(seen, distance.value);
      if Lt(distance.value, minDistance) {
        minDistance := distance.value;
        user := Some(trainSample.owner);
      }
      seen := seen + [distance.value];
    }
    ScanCompletes(ds, seen);
    assert Prediction(ds, Owners(trainingData))
        == if FirstMin(seen).None? then Success(None) else Success(Some(trainingData[FirstMin(seen).value].owner));
    r := Success(user);
  }

  // ----- batch comparison -----

  /** The prediction for every test sample against the training data. */
  function BatchPredictions(sqrt: SquareRoot, training: seq<Entry>, testing: seq<Entry>, w: int)
    : (ps: seq<Result<Option<string>>>)
    ensures |ps| == |testing|
  {
    seq(|testing|, i requires 0 <= i < |testing| => PredictionFor(sqrt, training, Some(testing[i].features), w))
  }

  /** What `CompareTrainingWithTesting` returns, once the training data is known to be non-empty. */
  function Batch(sqrt: SquareRoot, training: seq<Entry>, testing: seq<Entry>, w: int): (r: Result<seq<Option<string>>>)
    ensures r.Failure? <==> exists i :: 0 <= i < |testing| && PredictionFor(sqrt, training, Some(testing[i].features), w).Failure?
    ensures r.Failure? ==> r.error == ArgumentException
    ensures r.Success? ==> |r.value| == |testing|
    ensures r.Success? ==> forall i :: 0 <= i < |testing| ==>
      PredictionFor(sqrt, training, Some(testing[i].features), w) == Success(r.value[i])
  {
    var ps := BatchPredictions(sqrt, training, testing, w);
    assert forall i :: 0 <= i < |testing| ==> ps[i] == PredictionFor(sqrt, training, Some(testing[i].features), w);
    if AnyFailure(ps) then Failure(ArgumentException) else Success(Values(ps))
  }

  /** The `Parallel.For` of `CompareTrainingWithTesting`: each test sample's prediction goes to its own slot. */
  method PredictAll(sqrt: SquareRoot, trainingData: seq<Entry>, testingData: seq<Entry>, w: int)
    returns (r: Result<seq<Option<string>>>)
    requires forall e :: e in trainingData ==> FitsShort(Some(e.features))
    requires forall e :: e in testingData ==> FitsShort(Some(e.features))
    ensures r == Batch(sqrt, trainingData, testingData, w)
  {
    var predicted := new Option<string>[|testingData|];
    for i := 0 to |testingData|
      invariant forall t :: 0 <= t < i ==> PredictionFor(sqrt, trainingData, Some(testingData[t].features), w) == Success(predicted[t])
    {
      var testSample := testingData[i];
      var prediction := NearestOwner(sqrt, Some(testSample.features), trainingData, w);
      if prediction.Failure? {
        ghost var ps := BatchPredictions(sqrt, trainingData, testingData, w);
        assert ps[i].Failure?;
        return Failure(ArgumentException);
      }
      predicted[i] := prediction.value;
    }
    ScanCompletes(BatchPredictions(sqrt, trainingData, testingData, w), predicted[..]);
    r := Success(predicted[..]);
  }

  /** `CompareTrainingWithTesting`: one prediction per flattened test sample, in order. */
  method CompareTrainingWithTesting<S>(sqrt: SquareRoot, db: TemplateStore, data: seq<User<S>>,
                                       extract: S -> Sequence, w: int)
    returns (r: Result<seq<Option<string>>>)
    requires forall e :: e in db.rows ==> FitsShort(Some(e.features))
    requires forall e :: e in Extracted(data, extract) ==> FitsShort(Some(e.features))
    ensures |db.rows| == 0 ==> r == Failure(NoTrainingData)
    ensures |db.rows| > 0 ==> r == Batch(sqrt, db.rows, Extracted(data, extract), w)
    ensures r.Success? ==> |r.value| == TemplateCount(data)
  {
    var trainingData := db.GetAllAudioFiles();
    if |trainingData| == 0 {
      return Failure(NoTrainingData);
    }
    var testingData := FlattenDataAndExtractFeatures(data, extract);
    r := PredictAll(sqrt, trainingData, testingData, w);
  }

  // ----- identification of one query -----

  /** The distances `Identify` computes: the unbanded overload for `w == -1`, the banded one otherwise. */
  function IdentifyDistances(sqrt: SquareRoot, query: Option<Sequence>, candidates: seq<Entry>, w: int)
    : (ds: seq<Result<Cost>>)
    ensures |ds| == |candidates|
  {
    if w == -1 then UnbandedDistances(sqrt, query, candidates) else BandedDistances(sqrt, query, candidates, w)
  }

  /** What `Identify` reports: the owner of the first minimum, or the empty name. */
  function Identified(p: Result<Option<string>>): (r: Result<string>)
    ensures r.Failure? <==> p.Failure?
    ensures p.Failure? ==> r == Failure(p.error)
    ensures p == Success(None) ==> r == Success("")
    ensures r.Success? && r.value != "" ==> p == Success(Some(r.value))
    ensures p.Success? && p.value.Some? ==> r == Success(p.value.value)
  {
    match p
    case Failure(e) => Failure(e)
    case Success(None) => Success("")
    case Success(Some(name)) => Success(name)
  }

  /** `Identify`: the same first-minimum scan over every stored template. */
  method Identify(sqrt: SquareRoot, db: TemplateStore, query: Option<Sequence>, w: int) returns (r: Result<string>)
    requires w != -1 ==> FitsShort(query) && forall e :: e in db.rows ==> FitsShort(Some(e.features))
    ensures r == Identified(Prediction(IdentifyDistances(sqrt, query, db.rows, w), Owners(db.rows)))
  {
    var minDistance := Inf;
    var userName := "";
    var templates := db.GetAllAudioFiles();
    ghost var ds := IdentifyDistances(sqrt, query, templates, w);
    ghost var seen: seq<Cost> := [];
    for k := 0 to |templates|
      invariant |seen| == k
      invariant forall t :: 0 <= t < k ==> ds[t] == Success(seen[t])
      invariant FirstMin(seen).None? ==> userName == "" && minDistance == Inf
      invariant FirstMin(seen).Some? ==>
        userName == templates[FirstMin(seen).value].owner && minDistance == seen[FirstMin(seen).value]
    {
      var user := templates[k];
      var distance;
      if w == -1 {
        distance := ComputeDtw(sqrt, query, Some(user.features));
      } else {
        distance := ComputeDtwBanded(sqrt, query, Some(user.features), w);
      }
      assert distance == ds[k];
      if distance.Failure? {
        ScanFails(ds, Owners(templates), k);
        return Failure(distance.error);
      }
      FirstMinExtend(seen, distance.value);
      if Lt(distance.value, minDistance) {
        minDistance := distance.value;
        userName := user.owner;
      }
      seen := seen + [distance.value];
    }
    ScanCompletes(ds, seen);
    assert Prediction(ds, Owners(templates))
        == if FirstMin(seen).None? then Success(None) else Success(Some(templates[FirstMin(seen).value].owner));
    r := Success(userName);
  }

  // ----- properties of the matcher -----

  /**
   * `Identify` computes the distances the batch scan computes for the same
   * `w` (for `w == -1` through the unbanded overload), so it reports the
   * batch prediction, the empty name standing for null.
   */
  lemma IdentifyAgreesWithBatch(sqrt: SquareRoot, query: Option<Sequence>, candidates: seq<Entry>, w: int)
    ensures IdentifyDistances(sqrt, query, candidates, w) == BandedDistances(sqrt, query, candidates, w)
    ensures Identified(Prediction(IdentifyDistances(sqrt, query, candidates, w), Owners(candidates)))
         == Identified(PredictionFor(sqrt, candidates, query, w))
  {
    if w == -1 {
      forall k | 0 <= k < |candidates|
        ensures Unbanded(sqrt, query, Some(candidates[k].features)) == Banded(sqrt, query, Some(candidates[k].features), -1)
      {
        SentinelBandIsUnbanded(sqrt, query, Some(candidates[k].features));
      }
    }
  }

  /**
   * Over non-negative distances, a zero distance at `k` makes the scan
   * settle on the first zero distance, which is at or before `k`.
   */
  lemma {:induction false} ZeroWins(ds: seq<Result<Cost>>, owners: seq<string>, k: nat)
    requires |ds| == |owners| && k < |ds|
    requires forall t :: 0 <= t < |ds| ==> ds[t].Success? && NonNegative(ds[t].value)
    requires ds[k] == Success(Fin(0.0))
    ensures var p := Prediction(ds, owners);
      && p.Success? && p.value.Some?
      && exists j :: 0 <= j <= k && p.value.value == owners[j] && ds[j] == Success(Fin(0.0))
           && forall t :: 0 <= t < j ==> ds[t] != Success(Fin(0.0))
  {
    var vs := Values(ds);
    FirstMinIsFirstMinimum(vs);
    assert vs[k] != Inf;
    var j := FirstMin(vs).value;
    assert Le(vs[j], vs[k]);
    assert vs[j] == Fin(0.0);
    assert j <= k;
    forall t | 0 <= t < j
      ensures ds[t] != Success(Fin(0.0))
    {
      assert Lt(vs[j], vs[t]);
    }
  }

  /**
   * A candidate identical to the query wins, or an earlier candidate at the
   * same zero distance does: the prediction is the owner of the first
   * candidate at distance zero.
   */
  lemma ExactTemplateWins(sqrt: SquareRoot, query: Option<Sequence>, candidates: seq<Entry>, w: int, k: nat)
    requires IsSquareRoot(sqrt) && Usable(query) && forall e :: e in candidates ==> Usable(Some(e.features))
    requires k < |candidates| && candidates[k].features == query.value
    ensures var ds := BandedDistances(sqrt, query, candidates, w);
      var p := Prediction(ds, Owners(candidates));
      && p.Success? && p.value.Some?
      && exists j :: 0 <= j <= k && p.value.value == candidates[j].owner && ds[j] == Success(Fin(0.0))
           && forall t :: 0 <= t < j ==> ds[t] != Success(Fin(0.0))
  {
    var ds := BandedDistances(sqrt, query, candidates, w);
    forall t | 0 <= t < |candidates|
      ensures ds[t].Success? && NonNegative(ds[t].value)
    {
      assert candidates[t] in candidates;
      DistanceNonNegative(sqrt, query, Some(candidates[t].features), w);
    }
    SelfDistanceIsZero(sqrt, query, w);
    assert ds[k] == Success(Fin(0.0));
    ZeroWins(ds, Owners(candidates), k);
  }

  /**
   * What `Identify` reports when a stored template is identical to the query:
   * the owner of that template, or of an earlier template also at distance 0.
   */
  lemma IdentifyReportsExactTemplate(sqrt: SquareRoot, query: Option<Sequence>, candidates: seq<Entry>, w: int, k: nat)
    requires IsSquareRoot(sqrt) && Usable(query) && forall e :: e in candidates ==> Usable(Some(e.features))
    requires k < |candidates| && candidates[k].features == query.value
    ensures exists j ::
      && 0 <= j <= k
      && Identified(Prediction(IdentifyDistances(sqrt, query, candidates, w), Owners(candidates))) == Success(candidates[j].owner)
      && BandedDistances(sqrt, query, candidates, w)[j] == Success(Fin(0.0))
  {
    IdentifyAgreesWithBatch(sqrt, query, candidates, w);
    ExactTemplateWins(sqrt, query, candidates, w, k);
  }

  /** `Identify` on an empty repository reports the empty name, whatever the query. */
  lemma IdentifyEmptyRepository(sqrt: SquareRoot, query: Option<Sequence>, w: int)
    ensures Identified(Prediction(IdentifyDistances(sqrt, query, [], w), [])) == Success("")
  {
    assert FirstMin([]) == None;
  }
}
