/** The one experiment that may claim an untouched holdout
    (`run_sealed_temporal_experiment`, src/experiments.rs): the registry hands the
    holdout out before anything is computed. */
module SealedExperiments {
  import opened Common
  import Sorting
  import Datasets
  import Experiments

  type Trade = Experiments.Trade

  datatype SealedRun = SealedRun(evaluatorId: string, consumedAtSecs: i64, variants: seq<Experiments.Variant>)

  function SelectionOf(m: Datasets.Manifest): seq<Datasets.Partition> {
    Datasets.WithRole(m.partitions, Datasets.Selection)
  }

  function Intervals(selection: Datasets.Partition, holdout: Datasets.Partition, variants: seq<Experiments.Variant>)
    : Experiments.Manifest
  {
    Experiments.Manifest(variants, Some(selection.startSecs), selection.endSecs, holdout.startSecs, Some(holdout.endSecs))
  }

  /** The experiment a sealed run of this manifest stands for. */
  function SignedExperiment(m: Datasets.Manifest, variants: seq<Experiments.Variant>): Experiments.Manifest
    requires SelectionOf(m) != [] && Datasets.SealedOf(m) != []
  {
    Intervals(SelectionOf(m)[0], Datasets.SealedOf(m)[0], variants)
  }

  /** Succeeds exactly when the holdout is handed out, and then judges on the two
      signed intervals; a run that fails was handed nothing. */
  method RunSealedTemporalExperiment(trades: seq<Trade>, registry: Datasets.Registry, fileHash: string,
                                     signed: Datasets.Signed, verify: Datasets.Verifier, run: SealedRun,
                                     write: Datasets.WriteOutcome, markerWrite: Datasets.WriteOutcome)
    returns (r: Result<Experiments.ExperimentResult, Datasets.DatasetError>)
    requires registry.Valid()
    modifies registry
    ensures registry.Valid()
    ensures r.Ok? ==>
              && |SelectionOf(signed.manifest)| == 1 && |Datasets.SealedOf(signed.manifest)| == 1
              && Datasets.ManifestIsValid(signed.manifest)
              && Experiments.IsResult(trades, SignedExperiment(signed.manifest, run.variants), r.value)
              && registry.digest(signed.manifest) !in old(registry.markers)
              && (exists c :: registry.handedOut == old(registry.handedOut) + [c] && c.datasetId == signed.manifest.datasetId)
    ensures r.Err? ==> registry.handedOut == old(registry.handedOut)
  {
    var selection := SelectionOf(signed.manifest);
    if |selection| != 1 {
      return Err(Datasets.InvalidManifest);
    }
    var holdout := registry.ConsumeSealedHoldout(fileHash, signed, verify, run.evaluatorId, run.consumedAtSecs, write, markerWrite);
    if holdout.Err? {
      return Err(holdout.error);
    }
    var result := Experiments.RunTemporalExperiment(trades, Intervals(selection[0], holdout.value.partition, run.variants));
    return Ok(result);
  }

  /** The intervals of a sealed run are those of the manifest's first partitions with the
      role of selection and of sealed validation, both ends included. */
  lemma SignedIntervalsInFields(m: Datasets.Manifest, variants: seq<Experiments.Variant>, trade: Trade)
    requires SelectionOf(m) != [] && Datasets.SealedOf(m) != []
    ensures exists p | p in m.partitions && p.role == Datasets.Selection ::
              Experiments.InSelection(SignedExperiment(m, variants), trade) <==> p.startSecs <= trade.openedAt <= p.endSecs
    ensures exists p | p in m.partitions && p.role == Datasets.SealedValidation ::
              Experiments.InHoldout(SignedExperiment(m, variants), trade) <==> p.startSecs <= trade.openedAt <= p.endSecs
    ensures SignedExperiment(m, variants).variants == variants
  {
    var p, q := SelectionOf(m)[0], Datasets.SealedOf(m)[0];
    assert p in SelectionOf(m) && q in Datasets.SealedOf(m);
    assert Experiments.InSelection(SignedExperiment(m, variants), trade) <==> p.startSecs <= trade.openedAt <= p.endSecs;
    assert Experiments.InHoldout(SignedExperiment(m, variants), trade) <==> q.startSecs <= trade.openedAt <= q.endSecs;
  }

  /** No trade is used both to choose and to judge. */
  lemma IntervalsAreDisjoint(m: Datasets.Manifest, variants: seq<Experiments.Variant>, trade: Trade)
    requires Datasets.ManifestIsValid(m) && SelectionOf(m) != [] && Datasets.SealedOf(m) != []
    requires Experiments.InSelection(SignedExperiment(m, variants), trade)
    ensures !Experiments.InHoldout(SignedExperiment(m, variants), trade)
  {
    var p, q := SelectionOf(m)[0], Datasets.SealedOf(m)[0];
    assert p in m.partitions && q in m.partitions;
    var i: nat :| i < |m.partitions| && m.partitions[i] == p;
    var j: nat :| j < |m.partitions| && m.partitions[j] == q;
    Datasets.OneRoleAtATime(m, i, j, trade.openedAt);
  }

  /** Whatever the held-out trades are, the choice is the same: two runs whose
      trades differ in the holdout only select the same variant on the same metrics. */
  lemma HoldoutCannotSteer(m: Datasets.Manifest, variants: seq<Experiments.Variant>, a: seq<Trade>, b: seq<Trade>,
                           resultA: Experiments.ExperimentResult, resultB: Experiments.ExperimentResult)
    requires Datasets.ManifestIsValid(m) && SelectionOf(m) != [] && Datasets.SealedOf(m) != []
    requires var outside := (trade: Trade) => !Experiments.InHoldout(SignedExperiment(m, variants), trade);
             Sorting.Filter(a, outside) == Sorting.Filter(b, outside)
    requires Experiments.IsResult(a, SignedExperiment(m, variants), resultA)
    requires Experiments.IsResult(b, SignedExperiment(m, variants), resultB)
    ensures resultA.selectedVariant == resultB.selectedVariant && resultA.selectionMetrics == resultB.selectionMetrics
  {
    var experiment := SignedExperiment(m, variants);
    var outside := (trade: Trade) => !Experiments.InHoldout(experiment, trade);
    forall trade | Experiments.InSelection(experiment, trade) ensures outside(trade) {
      IntervalsAreDisjoint(m, variants, trade);
    }
    FilterTwice(a, outside, Experiments.SelectedBy(experiment));
    FilterTwice(b, outside, Experiments.SelectedBy(experiment));
    Experiments.NoLookAhead(a, b, experiment, resultA, resultB);
  }

  lemma {:induction false} FilterTwice(items: seq<Trade>, outer: Trade -> bool, inner: Trade -> bool)
    requires forall t :: inner(t) ==> outer(t)
    ensures Sorting.Filter(Sorting.Filter(items, outer), inner) == Sorting.Filter(items, inner)
  {
    if items != [] {
      FilterTwice(items[1..], outer, inner);
    }
  }
}
