/** Score presentation and the external analysis services the tasks call. */
module MeasurementUtils {
  import opened Common
  import opened Json

  /**
   * The services the analysis calls but that are not part of this model:
   * `compare_base64_images` (structural similarity of two base64 screenshots;
   * `None` when an image cannot be decoded) and
   * `get_resource_stats(...)['total']['ok']` (`None` when the resource list
   * cannot be read). The similarity is not assumed to lie in any range.
   */
  datatype Services = Services(compare: (string, string) -> Option<real>, okCount: Json -> Option<nat>)

  const Red := "#d10003"
  const Amber := "#b3a100"
  const Green := "#1d803b"

  /** The colour `colored_score` renders a score in; `None` (no markup) for a missing or zero score. */
  function ScoreColour(score: Option<real>): (c: Option<string>)
    ensures c.None? <==> score.None? || score.value == 0.0
    ensures c == Some(Red) <==> score.Some? && score.value != 0.0 && score.value < 0.8
    ensures c == Some(Amber) <==> score.Some? && 0.8 <= score.value < 0.95
    ensures c == Some(Green) <==> score.Some? && score.value >= 0.95
  {
    if score.None? || score.value == 0.0 then None
    else if score.value < 0.8 then Some(Red)
    else if score.value < 0.95 then Some(Amber)
    else Some(Green)
  }

  function ColourRank(c: string): nat
  {
    if c == Red then 0 else if c == Amber then 1 else 2
  }

  /** A higher (non-zero) score never gets a worse colour. */
  lemma ScoreColourMonotone(a: real, b: real)
    requires a != 0.0 && b != 0.0 && a <= b
    ensures ColourRank(ScoreColour(Some(a)).value) <= ColourRank(ScoreColour(Some(b)).value)
  {
  }

  /** Every non-zero score falls into exactly one of the three colours. */
  lemma ScoreColourTotal(a: real)
    requires a != 0.0
    ensures ScoreColour(Some(a)) in {Some(Red), Some(Amber), Some(Green)}
    ensures Red != Amber && Amber != Green && Red != Green
  {
  }
}
