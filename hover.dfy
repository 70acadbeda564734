/** Hover edge detection (HoverBehavior._on_mouse_pos): the mouse is
    sampled on every move and the widget reports entering and leaving. */
module Hover {
  // only for Option, which is defined with the JSON values
  import opened JsonValues

  datatype HoverEvent = Enter | Leave

  /** One mouse sample: whether the widget is attached to a window, and
      whether the mouse lies inside it. */
  datatype Sample = Sample(attached: bool, inside: bool)

  /** The hover state after one sample, and the event dispatched, if any. */
  datatype Step = Step(hovered: bool, event: Option<HoverEvent>)

  /** A detached widget ignores the mouse; otherwise `hovered` follows
      `inside`, and an event fires exactly when it changes. */
  function HoverStep(hovered: bool, s: Sample): (r: Step)
    ensures r.event.Some? <==> s.attached && s.inside != hovered
    ensures r.hovered == if r.event.Some? then !hovered else hovered
    ensures r.event == Some(Enter) ==> r.hovered
    ensures r.event == Some(Leave) ==> !r.hovered
    ensures s.attached ==> r.hovered == s.inside
  {
    if !s.attached || hovered == s.inside then Step(hovered, None)
    else Step(s.inside, Some(if s.inside then Enter else Leave))
  }

  /** The events fired over a run of samples, and the final hover state. */
  datatype Trace = Trace(hovered: bool, events: seq<HoverEvent>)

  function Run(hovered: bool, samples: seq<Sample>): Trace
    decreases |samples|
  {
    if samples == [] then Trace(hovered, [])
    else
      var st := HoverStep(hovered, samples[0]);
      var rest := Run(st.hovered, samples[1..]);
      if st.event.Some? then Trace(rest.hovered, [st.event.value] + rest.events) else rest
  }

  /** What a correct event stream looks like from a given start: enter and
      leave alternate, the first one changes the start state, and the final
      state is the one the last event announced. */
  predicate Alternating(start: bool, t: Trace)
  {
    && (forall i :: 0 <= i < |t.events| - 1 ==> t.events[i] != t.events[i + 1])
    && (t.events != [] ==> t.events[0] == (if start then Leave else Enter))
    && (t.events == [] ==> t.hovered == start)
    && (t.events != [] ==> (t.events[|t.events| - 1] == Enter <==> t.hovered))
  }

  /** Over any run of samples, on_enter and on_leave strictly alternate. */
  lemma {:induction false} RunAlternates(hovered: bool, samples: seq<Sample>)
    ensures Alternating(hovered, Run(hovered, samples))
    decreases |samples|
  {
    if samples != [] {
      var st := HoverStep(hovered, samples[0]);
      RunAlternates(st.hovered, samples[1..]);
      var rest := Run(st.hovered, samples[1..]);
      if st.event.Some? {
        var evs := [st.event.value] + rest.events;
        forall i | 0 <= i < |evs| - 1
          ensures evs[i] != evs[i + 1]
        {
          if i > 0 {
            assert evs[i] == rest.events[i - 1] && evs[i + 1] == rest.events[i];
          }
        }
      }
    }
  }

  /** Samples taken while the widget is detached fire nothing and change nothing. */
  lemma {:induction false} DetachedIsSilent(hovered: bool, samples: seq<Sample>)
    requires forall i :: 0 <= i < |samples| ==> !samples[i].attached
    ensures Run(hovered, samples) == Trace(hovered, [])
    decreases |samples|
  {
    if samples != [] {
      DetachedIsSilent(hovered, samples[1..]);
    }
  }
}
