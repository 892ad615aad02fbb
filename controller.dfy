/**
 * The page state of app.js and its entry points: the load callback that
 * fills in `data`, `yMin` and `yMax`, `updatePlot`, and `syncValue`, which
 * the inline handlers of the five slider/number pairs call. The DOM is
 * abstracted as a map from a control's prefix to the values it displays, and
 * the charting library as the list of views pushed to it.
 */
module Controller {
  import opened Loader
  import opened Plot

  /** One control of the page: the `.value` of the slider `prefix`, the
      `.value` of the number input `prefix + "_num"` and the `textContent`
      of the label `prefix + "_value"`. The number input is the master value. */
  datatype Control = Control(slider: string, number: string, display: string)

  /** `syncValue`'s effect on the control it is called for: from the slider,
      the number input and the label take the slider's value; from anywhere
      else, the label takes the number input's value. */
  function Synced(c: Control, source: string): Control
  {
    if source == "slider" then Control(c.slider, c.slider, c.slider)
    else c.(display := c.number)
  }

  /** After a sync the label shows the master value, the slider is untouched,
      and the master value is the slider's after a slider event and is kept
      after any other. */
  lemma SyncedShowsMaster(c: Control, source: string)
    ensures Synced(c, source).display == Synced(c, source).number
    ensures Synced(c, source).slider == c.slider
    ensures source == "slider" ==> Synced(c, source).number == c.slider
    ensures source != "slider" ==> Synced(c, source).number == c.number
  {
  }

  /** Syncing a second time from the same source changes nothing. */
  lemma SyncedIdempotent(c: Control, source: string)
    ensures Synced(Synced(c, source), source) == Synced(c, source)
  {
  }

  /** The prefixes of the five controls `updatePlot` reads. */
  const B0Linear := "B0_linear"
  const B1Linear := "B1_linear"
  const B0Quadratic := "B0_quadratic"
  const B1Quadratic := "B1_quadratic"
  const B2Quadratic := "B2_quadratic"

  ghost predicate HasParamControls(controls: map<string, Control>)
  {
    B0Linear in controls && B1Linear in controls && B0Quadratic in controls &&
    B1Quadratic in controls && B2Quadratic in controls
  }

  /** The five coefficients, `parseFloat` of the number inputs. */
  function ParamsOf(controls: map<string, Control>, parseFloat: string -> real): Params
    requires HasParamControls(controls)
  {
    Params(parseFloat(controls[B0Linear].number), parseFloat(controls[B1Linear].number),
           parseFloat(controls[B0Quadratic].number), parseFloat(controls[B1Quadratic].number),
           parseFloat(controls[B2Quadratic].number))
  }

  /** The sliders never feed the computation: two control states with the
      same number inputs give the same coefficients. */
  lemma ParamsReadNumbersOnly(c1: map<string, Control>, c2: map<string, Control>,
                              parseFloat: string -> real)
    requires HasParamControls(c1) && HasParamControls(c2)
    requires forall p :: p in c1 && p in c2 ==> c1[p].number == c2[p].number
    ensures ParamsOf(c1, parseFloat) == ParamsOf(c2, parseFloat)
  {
  }

  class Page {
    /** `parseFloat`, left uninterpreted. */
    const parseFloat: string -> real
    /** `data`: unset until the load callback runs. */
    var data: Option<Dataset>
    var yMin: Number
    var yMax: Number
    var controls: map<string, Control>
    /** The chart pairs pushed to the rendering surface, oldest first. */
    var rendered: seq<View>
    /** How many times `updatePlot` has been entered. */
    ghost var refreshes: nat

    /** The loaded dataset has parallel `x` and `y`, and the bounds are the
        ones the load callback computed from it; before loading, the bounds
        keep their initial 0 and nothing has been drawn. */
    ghost predicate Valid()
      reads this
    {
      HasParamControls(controls) &&
      (data.Some? ==>
         |data.value.x| == |data.value.y| &&
         yMin == AxisMin(data.value.y) && yMax == AxisMax(data.value.y)) &&
      (data.None? ==> yMin == Finite(0.0) && yMax == Finite(0.0) && rendered == [])
    }

    /** The coefficients `updatePlot` would read now. */
    function CurrentParams(): Params
      reads this
      requires HasParamControls(controls)
    {
      ParamsOf(controls, parseFloat)
    }

    /** The page as the script leaves it before the fetch completes. */
    constructor (parseFloat: string -> real, controls: map<string, Control>)
      requires HasParamControls(controls)
      ensures Valid()
      ensures this.parseFloat == parseFloat && this.controls == controls
      ensures data == None && rendered == [] && refreshes == 0
    {
      this.parseFloat := parseFloat;
      this.controls := controls;
      data := None;
      yMin, yMax := Finite(0.0), Finite(0.0);
      rendered := [];
      refreshes := 0;
    }

    /** `updatePlot()`: nothing before the data is loaded; afterwards one more
        chart pair, computed from the data, the number inputs and the fixed
        bounds. Data, bounds and controls are left as they are. */
    method UpdatePlot()
      requires Valid()
      modifies this`rendered, this`refreshes
      ensures Valid()
      ensures refreshes == old(refreshes) + 1
      ensures data.None? ==> rendered == old(rendered)
      ensures data.Some? ==>
        rendered == old(rendered) + [ViewOf(data.value, CurrentParams(), yMin, yMax)]
    {
      refreshes := refreshes + 1;
      if data.None? {
        return;
      }
      var p := ParamsOf(controls, parseFloat);
      rendered := rendered + [ViewOf(data.value, p, yMin, yMax)];
    }

    /** `syncValue(prefix, source)`: updates the one control as `Synced`
        says, leaves every other control alone, then refreshes exactly once. */
    method SyncValue(prefix: string, source: string)
      requires Valid() && prefix in controls
      modifies this`controls, this`rendered, this`refreshes
      ensures Valid()
      ensures controls == old(controls)[prefix := Synced(old(controls)[prefix], source)]
      ensures refreshes == old(refreshes) + 1
      ensures data.None? ==> rendered == old(rendered)
      ensures data.Some? ==>
        rendered == old(rendered) + [ViewOf(data.value, CurrentParams(), yMin, yMax)]
    {
      controls := controls[prefix := Synced(controls[prefix], source)];
      UpdatePlot();
    }

    /** `loadCSVData(callback)` on the fetched `text`. When the parse throws,
        nothing changes; otherwise the callback stores the dataset, sets the
        bounds from its `y` values and refreshes once. */
    method Load(text: string)
      requires Valid()
      modifies this`data, this`yMin, this`yMax, this`rendered, this`refreshes
      ensures Valid()
      ensures ParsedRows(text).None? ==>
        data == old(data) && yMin == old(yMin) && yMax == old(yMax) &&
        rendered == old(rendered) && refreshes == old(refreshes)
      ensures ParsedRows(text).Some? ==>
        data == Some(ToDataset(ParsedRows(text).value, parseFloat)) &&
        yMin == AxisMin(data.value.y) && yMax == AxisMax(data.value.y) &&
        refreshes == old(refreshes) + 1 &&
        rendered == old(rendered) + [ViewOf(data.value, CurrentParams(), yMin, yMax)]
    {
      var outcome := ParseCsv(text, parseFloat);
      if outcome.Loaded? {
        data := Some(outcome.data);
        yMin := AxisMin(outcome.data.y);
        yMax := AxisMax(outcome.data.y);
        UpdatePlot();
      }
    }

    /** Refreshing twice with nothing changed in between draws the same
        charts twice. */
    method RefreshTwice()
      requires Valid() && data.Some?
      modifies this`rendered, this`refreshes
      ensures Valid()
      ensures |rendered| == |old(rendered)| + 2
      ensures rendered[|rendered| - 1] == rendered[|rendered| - 2]
    {
      UpdatePlot();
      UpdatePlot();
    }
  }
}
