/**
 * The renderer's life cycle: created lazily from the window, it is
 * initialised by a future that is polled from the event loop until it
 * yields a renderer or fails; once ready, each frame's render error is
 * mapped to "keep going", "resize and keep going" or "stop".
 *
 * The future is represented by its answer to each poll, and the renderer
 * by its surface configuration, the only part of it this code changes.
 */
module RenderLoops {
  import opened Wrappers
  import opened GpuContexts

  /** The renderer as far as the life cycle sees it. */
  datatype Renderer = Renderer(surface: SurfaceConfig)

  /** `Renderer::resize`: the surface follows the window unless a side is zero. */
  function ResizeRenderer(r: Renderer, width: nat, height: nat): (r': Renderer)
    ensures r'.surface == Resized(r.surface, width, height)
  {
    Renderer(Resized(r.surface, width, height))
  }

  /** `RenderState`. */
  datatype RenderState = Uninitialized | Initializing | Ready(renderer: Renderer) | Failed

  /** A poll's answer, `Poll<Result<Renderer, _>>`: for the initialisation
      future and for `RenderLoop::poll` alike. */
  datatype Polled = PolledReady(renderer: Renderer) | PolledFailed | PolledPending

  /** The state after one `poll`, given what the initialisation future
      answers if it is polled. */
  function PollStep(s: RenderState, answer: Polled): (s': RenderState)
    ensures s.Initializing? && answer.PolledReady? ==> s' == Ready(answer.renderer)
    ensures s.Initializing? && answer.PolledFailed? ==> s' == Failed
    ensures s.Initializing? && answer.PolledPending? ==> s' == Initializing
    ensures !s.Initializing? ==> s' == s
  {
    if s.Initializing? then
      match answer
      case PolledReady(r) => Ready(r)
      case PolledFailed => Failed
      case PolledPending => Initializing
    else s
  }

  /** What `poll` reports for a state. */
  function Report(s: RenderState): (p: Polled)
    ensures p.PolledReady? <==> s.Ready?
    ensures p.PolledReady? ==> p.renderer == s.renderer
    ensures p.PolledFailed? <==> s.Failed?
    ensures p.PolledPending? <==> s.Uninitialized? || s.Initializing?
  {
    match s
    case Ready(r) => PolledReady(r)
    case Failed => PolledFailed
    case _ => PolledPending
  }

  /** `renderer`: the renderer when ready. */
  function RendererOf(s: RenderState): (r: Option<Renderer>)
    ensures r.Some? <==> s.Ready?
    ensures r.Some? ==> r.value == s.renderer
  {
    match s
    case Ready(r) => Some(r)
    case _ => None
  }

  /** The state after a run of polls, one future answer each. */
  function PollAll(s: RenderState, answers: seq<Polled>): RenderState
    decreases |answers|
  {
    if |answers| == 0 then s else PollAll(PollStep(s, answers[0]), answers[1..])
  }

  /** `Ready` and `Failed` are final: no run of polls leaves them. */
  lemma {:induction false} FinalStatesAbsorb(s: RenderState, answers: seq<Polled>)
    requires s.Ready? || s.Failed?
    ensures PollAll(s, answers) == s
    decreases |answers|
  {
    if |answers| > 0 {
      FinalStatesAbsorb(PollStep(s, answers[0]), answers[1..]);
    }
  }

  /** A pending future keeps the loop initialising however often it is
      polled, and the first non-pending answer decides the outcome for good. */
  lemma {:induction false} FirstAnswerDecides(answers: seq<Polled>, k: nat)
    requires k < |answers| && !answers[k].PolledPending?
    requires forall i :: 0 <= i < k ==> answers[i].PolledPending?
    ensures PollAll(Initializing, answers) == (if answers[k].PolledFailed? then Failed else Ready(answers[k].renderer))
    decreases k
  {
    if k == 0 {
      FinalStatesAbsorb(PollStep(Initializing, answers[0]), answers[1..]);
    } else {
      assert answers[0].PolledPending?;
      FirstAnswerDecides(answers[1..], k - 1);
    }
  }

  /** Without a proxy only the explicit redraw request, made whenever the
      future is still pending, brings the loop back to `poll`. */
  predicate RequestsRedraw(s: RenderState, answer: Polled)
  {
    s.Initializing? && answer.PolledPending?
  }

  /** The errors a frame's surface acquisition can report. */
  datatype SurfaceError = Timeout | Outdated | Lost | OutOfMemory | Other

  /** `render`'s answer: an error only when a ready renderer ran out of memory. */
  function RenderOutcome(s: RenderState, frame: Result<(), SurfaceError>): (r: Result<(), ()>)
    ensures r.Err? <==> s.Ready? && frame == Err(OutOfMemory)
  {
    if s.Ready? && frame == Err(OutOfMemory) then Err(()) else Ok(())
  }

  /** `render`'s effect: a ready renderer whose surface was lost or outdated
      is resized to the window; nothing else changes. */
  function RenderStep(s: RenderState, frame: Result<(), SurfaceError>, width: nat, height: nat): (s': RenderState)
    ensures !s.Ready? ==> s' == s
    ensures s.Ready? && (frame == Err(Lost) || frame == Err(Outdated)) ==> s' == Ready(ResizeRenderer(s.renderer, width, height))
    ensures s.Ready? && frame != Err(Lost) && frame != Err(Outdated) ==> s' == s
  {
    if s.Ready? && frame.Err? && (frame.error == Lost || frame.error == Outdated) then
      Ready(ResizeRenderer(s.renderer, width, height))
    else s
  }

  /** A frame never changes which stage the life cycle is in. */
  lemma RenderKeepsStage(s: RenderState, frame: Result<(), SurfaceError>, width: nat, height: nat)
    ensures RenderStep(s, frame, width, height).Ready? <==> s.Ready?
    ensures RendererOf(RenderStep(s, frame, width, height)).Some? <==> RendererOf(s).Some?
  {
  }

  /** `RenderLoop`. */
  class RenderLoop {
    var state: RenderState
    var hasProxy: bool

    /** `new` / `default`: uninitialised, with no event-loop proxy. */
    constructor ()
      ensures state == Uninitialized && !hasProxy
    {
      state := Uninitialized;
      hasProxy := false;
    }

    /** `set_event_proxy`. */
    method SetEventProxy()
      modifies this
      ensures hasProxy && state == old(state)
    {
      hasProxy := true;
    }

    /** `initialize`: start the initialisation future, whatever the state was. */
    method Initialize()
      modifies this
      ensures state == Initializing && hasProxy == old(hasProxy)
    {
      state := Initializing;
    }

    /** `poll`, given the future's answer should it be polled. Also returns
        whether a redraw of the window was requested. */
    method Poll(answer: Polled) returns (p: Polled, redraw: bool)
      modifies this
      ensures state == PollStep(old(state), answer) && hasProxy == old(hasProxy)
      ensures p == Report(state)
      ensures redraw <==> RequestsRedraw(old(state), answer)
    {
      var current := state;
      state := Uninitialized;
      redraw := false;
      match current {
        case Initializing =>
          match answer {
            case PolledReady(r) =>
              state := Ready(r);
            case PolledFailed =>
              state := Failed;
            case PolledPending =>
              redraw := true;
              state := Initializing;
          }
        case _ =>
          state := current;
      }
      match state {
        case Ready(r) => p := PolledReady(r);
        case Failed => p := PolledFailed;
        case Initializing => p := PolledPending;
        case Uninitialized => p := PolledPending;
      }
    }

    /** `renderer`. */
    function ReadyRenderer(): (r: Option<Renderer>)
      reads this
      ensures r == RendererOf(state)
    {
      if state.Ready? then Some(state.renderer) else None
    }

    /** `render`, given the outcome of drawing the frame and the window's
        current size. */
    method Render(frame: Result<(), SurfaceError>, width: nat, height: nat) returns (r: Result<(), ()>)
      modifies this
      ensures state == RenderStep(old(state), frame, width, height) && hasProxy == old(hasProxy)
      ensures r == RenderOutcome(old(state), frame)
    {
      r := Ok(());
      if state.Ready? {
        match frame {
          case Ok(_) =>
          case Err(e) =>
            if e == Lost || e == Outdated {
              state := Ready(ResizeRenderer(state.renderer, width, height));
            } else if e == OutOfMemory {
              r := Err(());
            }
        }
      }
    }
  }
}
