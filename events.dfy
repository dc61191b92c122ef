/** The event closure of `main` (src/main.rs:24-49): the flags `destroying`
    and `minimized`, the application's `resized` flag and the control flow,
    and how they gate `App::render` and `App::destroy`.

    `React` is the closure on one event as a function, returning a
    `Reaction`; `EventLoop` is the closure as a method on the captured
    state, proved to do what `React` says. */
module Events {
  import opened Vk
  import opened Scheduler
  import Teardown
  import App

  /** `winit::event_loop::ControlFlow`, the two values the closure uses. */
  datatype ControlFlow = Poll | Exit

  /** The events the closure tells apart; every other event is `Other`. */
  datatype Event = MainEventsCleared | Resized(width: nat, height: nat) | CloseRequested | Other

  /** What the closure does to the application on an event. */
  datatype Action = RenderFrame | MarkResized | DestroyApp | Nothing

  /** The closure's own state. */
  datatype Flags = Flags(destroying: bool, minimized: bool, controlFlow: ControlFlow)

  /** Neither flag set (src/main.rs:24-25); the control flow starts as
      `Poll`, which every event sets again anyway. */
  const Start: Flags := Flags(false, false, Poll)

  datatype Reaction = Reaction(flags: Flags, action: Action)

  /** The closure on one event. */
  function React(f: Flags, e: Event): Reaction
  {
    var f := f.(controlFlow := Poll);
    match e
    case MainEventsCleared =>
      if !f.destroying && !f.minimized then Reaction(f, RenderFrame) else Reaction(f, Nothing)
    case Resized(width, height) =>
      if width == 0 || height == 0 then Reaction(f.(minimized := true), Nothing)
      else Reaction(f.(minimized := false), MarkResized)
    case CloseRequested => Reaction(f.(destroying := true, controlFlow := Exit), DestroyApp)
    case Other => Reaction(f, Nothing)
  }

  /** The flags after a sequence of events. */
  function Run(f: Flags, es: seq<Event>): Flags
    decreases |es|
  {
    if es == [] then f else React(Run(f, es[..|es| - 1]), es[|es| - 1]).flags
  }

  /** The action taken on each event of a sequence. */
  function Actions(f: Flags, es: seq<Event>): (r: seq<Action>)
    ensures |r| == |es|
    decreases |es|
  {
    if es == [] then [] else Actions(f, es[..|es| - 1]) + [React(Run(f, es[..|es| - 1]), es[|es| - 1]).action]
  }

  /** `render` is called exactly on `MainEventsCleared` while neither
      closing nor minimized. */
  lemma RenderGated(f: Flags, e: Event)
    ensures React(f, e).action == RenderFrame <==> e == MainEventsCleared && !f.destroying && !f.minimized
  {
  }

  /** Every event leaves the control flow at `Poll`, except a close
      request, which leaves it at `Exit`. */
  lemma PollUnlessClose(f: Flags, e: Event)
    ensures React(f, e).flags.controlFlow == (if e == CloseRequested then Exit else Poll)
  {
  }

  /** A zero-sized resize only marks the window minimized; any other resize
      clears that mark and sets the application's `resized`. Neither touches
      `destroying`. */
  lemma ResizeEffect(f: Flags, width: nat, height: nat)
    ensures var r := React(f, Resized(width, height));
      && r.flags.minimized == (width == 0 || height == 0)
      && r.action == (if width == 0 || height == 0 then Nothing else MarkResized)
      && r.flags.destroying == f.destroying
  {
  }

  /** A close request sets `destroying`, asks to exit and destroys the
      application. */
  lemma CloseEffect(f: Flags)
    ensures React(f, CloseRequested) == Reaction(f.(destroying := true, controlFlow := Exit), DestroyApp)
  {
  }

  /** Once set, `destroying` is never cleared. */
  lemma {:induction false} DestroyingStays(f: Flags, es: seq<Event>)
    requires f.destroying
    ensures Run(f, es).destroying
    decreases |es|
  {
    if es != [] {
      DestroyingStays(f, es[..|es| - 1]);
    }
  }

  /** After a close request, `destroying` stays set for good. */
  lemma {:induction false} DestroyingAfterClose(f: Flags, es: seq<Event>, i: nat)
    requires i < |es| && es[i] == CloseRequested
    ensures Run(f, es).destroying
    decreases |es|
  {
    if i < |es| - 1 {
      DestroyingAfterClose(f, es[..|es| - 1], i);
    }
  }

  /** The actions of a prefix are a prefix of the actions. */
  lemma {:induction false} ActionsPrefix(f: Flags, es: seq<Event>, n: nat)
    requires n <= |es|
    ensures Actions(f, es[..n]) == Actions(f, es)[..n]
    decreases |es|
  {
    if n < |es| {
      assert es[..|es| - 1][..n] == es[..n];
      ActionsPrefix(f, es[..|es| - 1], n);
    } else {
      assert es[..n] == es;
    }
  }

  /** No frame is rendered after a close request: every later render is
      suppressed. */
  lemma NoRenderAfterClose(f: Flags, es: seq<Event>, i: nat, j: nat)
    requires i < j < |es| && es[i] == CloseRequested
    ensures Actions(f, es)[j] != RenderFrame
  {
    ActionsPrefix(f, es, j + 1);
    var before := es[..j + 1][..j];
    assert before == es[..j];
    DestroyingAfterClose(f, before, i);
  }

  /** `minimized` says whether the last resize was to a zero size. */
  lemma {:induction false} MinimizedByLastResize(f: Flags, es: seq<Event>, i: nat)
    requires i < |es| && es[i].Resized?
    requires forall j :: i < j < |es| ==> !es[j].Resized?
    ensures Run(f, es).minimized == (es[i].width == 0 || es[i].height == 0)
    decreases |es|
  {
    if i < |es| - 1 {
      MinimizedByLastResize(f, es[..|es| - 1], i);
    }
  }

  /** Without a resize, `minimized` keeps the value it started with. */
  lemma {:induction false} MinimizedWithoutResize(f: Flags, es: seq<Event>)
    requires forall j :: 0 <= j < |es| ==> !es[j].Resized?
    ensures Run(f, es).minimized == f.minimized
    decreases |es|
  {
    if es != [] {
      MinimizedWithoutResize(f, es[..|es| - 1]);
    }
  }

  /** The closure's captured state: the two flags, the control flow it
      writes through `control_flow`, and the application it drives. */
  class EventLoop {
    const app: App.App
    var destroying: bool
    var minimized: bool
    var controlFlow: ControlFlow

    ghost function Current(): Flags
      reads this
    {
      Flags(destroying, minimized, controlFlow)
    }

    /** src/main.rs:23-25: the application has just been created. */
    constructor (app: App.App)
      ensures this.app == app && Current() == Start
    {
      this.app := app;
      destroying := false;
      minimized := false;
      controlFlow := Poll;
    }

    /** One call of the closure.  `input` is what the driver answers if a
        frame is rendered; `r` is what `render` returned, and an `Err`
        there makes `unwrap` abort the program. */
    method Handle(e: Event, input: FrameInput) returns (action: Action, r: Result<()>)
      requires app.Valid()
      requires React(Current(), e).action == RenderFrame ==> Admissible(app.Model(), input)
      modifies this, app
      ensures app.Valid()
      ensures Reaction(Current(), action) == React(old(Current()), e)
      ensures action == RenderFrame ==> Step(app.Model(), r) == Scheduler.Render(old(app.Model()), input)
      ensures action == MarkResized ==> app.Model() == old(app.Model()).(resized := true) && r == Ok(())
      ensures action == DestroyApp ==>
        && app.Model() == old(app.Model()).(calls := app.calls)
        && app.calls == old(app.calls) + Teardown.DestroyCalls(old(app.Model()), app.validationEnabled)
        && r == Ok(())
      ensures action == Nothing ==> app.Model() == old(app.Model()) && r == Ok(())
      ensures app.data.physicalDevice == old(app.data.physicalDevice)
      ensures action != RenderFrame ==> app.data == old(app.data) && app.frame == old(app.frame)
    {
      controlFlow := Poll;
      r := Ok(());
      match e
      case MainEventsCleared =>
        if !destroying && !minimized {
          r := app.Render(input);
          action := RenderFrame;
        } else {
          action := Nothing;
        }
      case Resized(width, height) =>
        if width == 0 || height == 0 {
          minimized := true;
        } else {
          minimized := false;
          app.resized := true;
        }
        action := if width == 0 || height == 0 then Nothing else MarkResized;
      case CloseRequested =>
        destroying := true;
        controlFlow := Exit;
        app.Destroy();
        action := DestroyApp;
      case Other =>
        action := Nothing;
    }
  }
}
