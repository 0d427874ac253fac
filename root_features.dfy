/**
  * The older `PersistenceFeaturesGenerator` of the top-level features.py: its constructor,
  * which checks the power and then ignores it, and the width of the rows it builds.
  */
module RootFeatures {
  import opened Wrappers
  import PF = PersistenceFeatures

  class PersistenceFeaturesGenerator {
    const useInfinityNorm: bool
    const useTotalPersistence: bool
    const useLabelPersistence: bool
    /** `_p`: always 1.0, whatever power was requested. */
    const p: real

    constructor (useInfinityNorm: bool, useTotalPersistence: bool, useLabelPersistence: bool)
      ensures this.useInfinityNorm == useInfinityNorm && this.useTotalPersistence == useTotalPersistence
      ensures this.useLabelPersistence == useLabelPersistence && p == 1.0
    {
      this.useInfinityNorm := useInfinityNorm;
      this.useTotalPersistence := useTotalPersistence;
      this.useLabelPersistence := useLabelPersistence;
      this.p := 1.0;
    }

    /** `PersistenceFeaturesGenerator(...)`: a power that is not positive raises RuntimeError;
        any other power is accepted and replaced by 1.0. */
    static method New(useInfinityNorm: bool, useTotalPersistence: bool, useLabelPersistence: bool, p: real)
      returns (r: Result<PersistenceFeaturesGenerator>)
      ensures r.Err? <==> p <= 0.0
      ensures r.Err? ==> r.error.RuntimeError?
      ensures r.Ok? ==> fresh(r.value) && r.value.p == 1.0
      ensures r.Ok? ==> r.value.useInfinityNorm == useInfinityNorm && r.value.useTotalPersistence == useTotalPersistence
      ensures r.Ok? ==> r.value.useLabelPersistence == useLabelPersistence
    {
      var generator := new PersistenceFeaturesGenerator(useInfinityNorm, useTotalPersistence, useLabelPersistence);
      if p <= 0.0 {
        return Err(RuntimeError("Power parameter must be non-negative"));
      }
      return Ok(generator);
    }

    /** `num_columns`: the booleans counted as 0 or 1, the label block `num_labels` wide. */
    function NumColumns(numLabels: nat): nat
    {
      (if useInfinityNorm then 1 else 0) + (if useTotalPersistence then 1 else 0) +
      (if useLabelPersistence then numLabels else 0)
    }

    /** The rows are as wide as those of the generator of src/features.py with the same
        three options and neither original features nor cycle persistence. */
    lemma SameWidthAsGenerator(other: PF.PersistenceFeaturesGenerator, numLabels: nat)
      requires other.useInfinityNorm == useInfinityNorm && other.useTotalPersistence == useTotalPersistence
      requires other.useLabelPersistence == useLabelPersistence
      requires !other.useOriginalFeatures && !other.useCyclePersistence
      ensures NumColumns(numLabels) == other.NumColumns(numLabels)
      ensures useLabelPersistence ==> NumColumns(numLabels) == other.LabelOffset() + numLabels
    {
    }
  }
}
