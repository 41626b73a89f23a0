/**
 * The guard of resizeScaleBar (src/clusterMap.js): the length the user types
 * into the prompt replaces the scale bar's base-pair length, and a redraw is
 * requested, only when the prompt's result is truthy.
 */
module ScaleBar {
  import opened Wrappers

  /**
   * The scale bar's configured length: a number as configured, or the text
   * the prompt returned, which the source stores without converting it.
   */
  datatype BasePair = Number(n: int) | Text(s: string)

  /**
   * JavaScript truthiness of a prompt result: `null` (the prompt was
   * cancelled) and the empty string are falsy; every other string is truthy.
   */
  predicate Truthy(result: Option<string>)
  {
    result.Some? && result.value != ""
  }

  /** The scale bar part of the plot configuration. */
  class ScaleBarConfig {
    var stroke: int
    var height: int
    var colour: string
    var basePair: BasePair
    var fontSize: int

    constructor (stroke: int, height: int, colour: string, basePair: BasePair, fontSize: int)
      ensures this.stroke == stroke && this.height == height && this.colour == colour
      ensures this.basePair == basePair && this.fontSize == fontSize
    {
      this.stroke := stroke;
      this.height := height;
      this.colour := colour;
      this.basePair := basePair;
      this.fontSize := fontSize;
    }

    /**
     * resizeScaleBar with the prompt's answer as `result`: a truthy answer is
     * stored as the base-pair length and `update` asks for the plot to be
     * redrawn; a cancelled or empty answer changes nothing and asks for
     * nothing. No other configuration field is written.
     */
    method ResizeScaleBar(result: Option<string>) returns (update: bool)
      modifies this`basePair
      ensures update <==> Truthy(result)
      ensures basePair == if update then Text(result.value) else old(basePair)
    {
      update := false;
      if result.Some? && result.value != "" {
        basePair := Text(result.value);
        update := true;
      }
    }
  }
}
