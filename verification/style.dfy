/** The chart's per-series styling (app.py:111-136): five fixed overrides, each applied
    when its sensor is selected, recolouring (and for the outdoor sensor, dashing) every
    trace whose lower-cased name is the override's target. The last override keeps the
    code's copy-paste slip: selecting "temp homepod cuisine" recolours the trace named
    "temp homepod salon". */
module Style {
  import opened Wrappers
  import opened Text

  /** A trace of the figure: its name and how its line is drawn. */
  datatype Line = Line(name: string, color: string, dash: string)

  /** One `if <trigger> in selected_sensors:` block: every trace whose lower-cased name is
      `target` gets `color`, and `dash` when one is given. */
  datatype Override = Override(trigger: string, target: string, color: string, dash: Option<string>)

  /** The five blocks, in the order the code runs them. */
  const Overrides: seq<Override> := [
    Override("temp netatmo out", "temp netatmo out", "gray", Some("dash")),
    Override("temp netatmo hub", "temp netatmo hub", "#ab1a0f", None),
    Override("temp homepod bureau", "temp homepod bureau", "#e1807a", None),
    Override("temp homepod salon", "temp homepod salon", "#7979df", None),
    Override("temp homepod cuisine", "temp homepod salon", "#062951", None)
  ]

  /** Whether block `o` touches `line` for this selection. */
  predicate Hits(o: Override, line: Line, selected: seq<string>) {
    o.trigger in selected && Lower(line.name) == o.target
  }

  /** One block applied to one trace. */
  function Apply(line: Line, o: Override, selected: seq<string>): (r: Line)
    ensures r.name == line.name
    ensures !Hits(o, line, selected) ==> r == line
    ensures Hits(o, line, selected) ==> r.color == o.color
    ensures Hits(o, line, selected) ==> r.dash == if o.dash.Some? then o.dash.value else line.dash
  {
    if Hits(o, line, selected) then
      Line(line.name, o.color, if o.dash.Some? then o.dash.value else line.dash)
    else line
  }

  /** A trace after the blocks in `os`, run in order; it keeps its name. */
  function StyleLine(line: Line, selected: seq<string>, os: seq<Override>): (r: Line)
    ensures r.name == line.name
  {
    if os == [] then line
    else Apply(StyleLine(line, selected, os[..|os| - 1]), os[|os| - 1], selected)
  }

  /** A trace no block hits is left alone, and any new colour or dash a trace gets is
      that of a block that hits it. */
  lemma {:induction false} StyleLineSource(line: Line, selected: seq<string>, os: seq<Override>)
    ensures (forall o :: o in os ==> !Hits(o, line, selected)) ==> StyleLine(line, selected, os) == line
    ensures var r := StyleLine(line, selected, os);
      r.color == line.color || exists o :: o in os && Hits(o, line, selected) && r.color == o.color
    ensures var r := StyleLine(line, selected, os);
      r.dash == line.dash || exists o :: o in os && Hits(o, line, selected) && o.dash == Some(r.dash)
  {
    if os != [] {
      var init := os[..|os| - 1];
      StyleLineSource(line, selected, init);
      assert forall o :: o in init ==> o in os;
    }
  }

  /** Running one more block after the first `k`. */
  lemma StyleStep(line: Line, selected: seq<string>, os: seq<Override>, k: nat)
    requires k < |os|
    ensures StyleLine(line, selected, os[..k + 1]) == Apply(StyleLine(line, selected, os[..k]), os[k], selected)
  {
    assert os[..k + 1][..k] == os[..k];
  }

  /** Every trace after all five blocks; the traces keep their order and names. */
  function Restyle(lines: seq<Line>, selected: seq<string>): (r: seq<Line>)
    ensures |r| == |lines|
    ensures forall t :: 0 <= t < |lines| ==> r[t].name == lines[t].name
  {
    seq(|lines|, t requires 0 <= t < |lines| => StyleLine(lines[t], selected, Overrides))
  }

  /** The five blocks, written out one after the other. */
  lemma StyleAll(line: Line, selected: seq<string>)
    ensures StyleLine(line, selected, Overrides) ==
      Apply(Apply(Apply(Apply(Apply(line, Overrides[0], selected), Overrides[1], selected),
        Overrides[2], selected), Overrides[3], selected), Overrides[4], selected)
  {
    var s0 := StyleLine(line, selected, Overrides[..0]);
    assert s0 == line;
    var s1 := StyleLine(line, selected, Overrides[..1]);
    assert Overrides[..1][..0] == Overrides[..0];
    assert s1 == Apply(s0, Overrides[0], selected);
    var s2 := StyleLine(line, selected, Overrides[..2]);
    assert Overrides[..2][..1] == Overrides[..1];
    assert s2 == Apply(s1, Overrides[1], selected);
    var s3 := StyleLine(line, selected, Overrides[..3]);
    assert Overrides[..3][..2] == Overrides[..2];
    assert s3 == Apply(s2, Overrides[2], selected);
    var s4 := StyleLine(line, selected, Overrides[..4]);
    assert Overrides[..4][..3] == Overrides[..3];
    assert s4 == Apply(s3, Overrides[3], selected);
    assert Overrides[..5] == Overrides && Overrides[..5][..4] == Overrides[..4];
  }

  /** The dash and the grey colour go to the outdoor sensor's trace and to no other:
      a trace whose dash changes is that one, and it is dashed and grey exactly when
      that sensor is selected. */
  lemma OnlyOutdoorDashed(line: Line, selected: seq<string>)
    ensures var r := StyleLine(line, selected, Overrides);
      r.name == line.name &&
      (r.dash != line.dash ==> Lower(line.name) == "temp netatmo out") &&
      (r.color == "gray" && line.color != "gray" ==> Lower(line.name) == "temp netatmo out") &&
      (Lower(line.name) == "temp netatmo out" ==>
        r == if "temp netatmo out" in selected then Line(line.name, "gray", "dash") else line)
  {
    StyleAll(line, selected);
  }

  /** The copy-paste slip: the salon trace ends up "#062951" whenever the kitchen sensor
      is selected, overriding its own "#7979df"; its dash never changes. */
  lemma SalonColour(line: Line, selected: seq<string>)
    requires Lower(line.name) == "temp homepod salon"
    ensures var r := StyleLine(line, selected, Overrides);
      r.name == line.name && r.dash == line.dash &&
      r.color == if "temp homepod cuisine" in selected then "#062951"
        else if "temp homepod salon" in selected then "#7979df"
        else line.color
  {
    StyleAll(line, selected);
  }

  /** No block targets the kitchen sensor's trace, so it keeps its colour and dash. */
  lemma CuisineUntouched(line: Line, selected: seq<string>)
    requires Lower(line.name) == "temp homepod cuisine"
    ensures StyleLine(line, selected, Overrides) == line
  {
    StyleAll(line, selected);
  }

  /** The hub and office traces get their own colour when selected, nothing else. */
  lemma OwnColour(line: Line, selected: seq<string>)
    requires Lower(line.name) in ["temp netatmo hub", "temp homepod bureau"]
    ensures var r := StyleLine(line, selected, Overrides);
      var own := if Lower(line.name) == "temp netatmo hub" then "#ab1a0f" else "#e1807a";
      r == if Lower(line.name) in selected then Line(line.name, own, line.dash) else line
  {
    StyleAll(line, selected);
  }

  /** A trace whose lower-cased name no block targets is left as it is. */
  lemma UntargetedUnchanged(line: Line, selected: seq<string>)
    requires forall o :: o in Overrides ==> Lower(line.name) != o.target
    ensures StyleLine(line, selected, Overrides) == line
  {
    StyleAll(line, selected);
    assert Overrides[0] in Overrides && Overrides[1] in Overrides && Overrides[2] in Overrides;
    assert Overrides[3] in Overrides && Overrides[4] in Overrides;
  }

  /** The figure `px.line` returns, whose traces the blocks restyle in place. */
  class Figure {
    var lines: seq<Line>

    constructor (initial: seq<Line>)
      ensures lines == initial
    {
      lines := initial;
    }

    /** The five `if ... in selected_sensors: for trace in fig.data: ...` blocks. */
    method ApplyOverrides(selected: seq<string>)
      modifies this
      ensures lines == Restyle(old(lines), selected)
    {
      ghost var before := lines;
      var k := 0;
      while k < |Overrides|
        invariant 0 <= k <= |Overrides|
        invariant |lines| == |before|
        invariant forall t :: 0 <= t < |lines| ==> lines[t] == StyleLine(before[t], selected, Overrides[..k])
      {
        var o := Overrides[k];
        forall u | 0 <= u < |lines|
          ensures StyleLine(before[u], selected, Overrides[..k + 1]) == Apply(lines[u], o, selected)
        {
          StyleStep(before[u], selected, Overrides, k);
        }
        if o.trigger in selected {
          label Pass:
          var t := 0;
          while t < |lines|
            invariant 0 <= t <= |lines| == |before|
            invariant forall u :: 0 <= u < t ==> lines[u] == Apply(old@Pass(lines)[u], o, selected)
            invariant forall u :: t <= u < |lines| ==> lines[u] == old@Pass(lines)[u]
          {
            var trace := lines[t];
            if Lower(trace.name) == o.target {
              var dash := if o.dash.Some? then o.dash.value else trace.dash;
              lines := lines[t := Line(trace.name, o.color, dash)];
            }
            t := t + 1;
          }
        }
        k := k + 1;
      }
      assert Overrides[..|Overrides|] == Overrides;
    }
  }
}
