/**
 * The program's entry point: build the state record and a single pull-request list view,
 * render once, then feed terminal key events to the application one at a time, stopping
 * at the first input after which the application wants to quit and rendering after every
 * other input. The terminal's input stream is a finite sequence here.
 */
module MainLoop {
  import opened Models
  import Events
  import PullRequests
  import Views
  import opened Application

  /** A key as the terminal library reports it. */
  datatype Key =
    | Backspace | Left | Right | Up | Down | Home | End | PageUp | PageDown
    | BackTab | Delete | Insert | F(n: nat) | Char(c: char) | Alt(c: char) | Ctrl(c: char)
    | Null | Esc

  /** An input event as the terminal library reports it; only key presses are looked at. */
  datatype TermEvent = KeyPress(key: Key) | Mouse | Unsupported

  /** The vi-style letter bound to each direction. */
  function MoveKey(d: Events.Direction): char
  {
    match d
    case Down => 'j'
    case Up => 'k'
    case Left => 'h'
    case Right => 'l'
  }

  /** The key binding: Esc and `q` quit, Backspace goes back, h/j/k/l move, everything else is ignored. */
  function KeyToEvent(input: TermEvent): (r: Option<Events.Event>)
    ensures r == Some(Events.Quit) <==> input == KeyPress(Esc) || input == KeyPress(Char('q'))
    ensures r == Some(Events.Back) <==> input == KeyPress(Backspace)
    ensures forall d :: r == Some(Events.Move(d)) <==> input == KeyPress(Char(MoveKey(d)))
    ensures r.Some? ==> input.KeyPress? && (input.key.Esc? || input.key.Backspace? || input.key.Char?)
  {
    match input
    case KeyPress(Esc) => Some(Events.Quit)
    case KeyPress(Backspace) => Some(Events.Back)
    case KeyPress(Char(ch)) =>
      if ch == 'q' then Some(Events.Quit)
      else if ch == 'j' then Some(Events.Move(Events.Down))
      else if ch == 'k' then Some(Events.Move(Events.Up))
      else if ch == 'h' then Some(Events.Move(Events.Left))
      else if ch == 'l' then Some(Events.Move(Events.Right))
      else None
    case _ => None
  }

  /** Handling the input cannot fail: a mapped event other than Quit is one the active view can take. */
  predicate CanFeed(m: AppModel, input: TermEvent)
  {
    KeyToEvent(input).Some? && KeyToEvent(input).value != Events.Quit ==>
      Views.CanHandle(m.active, KeyToEvent(input).value)
  }

  /** One input: handled when it maps to an event, otherwise the application is left alone. */
  function Feed(m: AppModel, input: TermEvent): (r: AppModel)
    requires CanFeed(m, input)
    ensures KeyToEvent(input).None? ==> r == m
    ensures KeyToEvent(input).Some? ==> r.dirty == !m.dirty
    ensures r.viewIndex == m.viewIndex
  {
    match KeyToEvent(input)
    case None => m
    case Some(e) => HandleModel(m, e)
  }

  /** No input of the run reaches an arithmetic failure before the loop stops. */
  predicate LoopSafe(m: AppModel, inputs: seq<TermEvent>)
    decreases |inputs|
  {
    |inputs| == 0 ||
    (CanFeed(m, inputs[0]) &&
     (Feed(m, inputs[0]).quitting || LoopSafe(RenderModel(Feed(m, inputs[0])), inputs[1..])))
  }

  /** Where a run ends: the final model, the inputs read, the render calls made and the frames drawn. */
  datatype LoopResult = LoopResult(model: AppModel, consumed: nat, renders: nat, frames: nat)

  /**
   * The loop body over a sequence of inputs: feed one input, stop if the application is
   * quitting, otherwise render and continue.
   */
  function Run(m: AppModel, inputs: seq<TermEvent>): (r: LoopResult)
    requires LoopSafe(m, inputs)
    decreases |inputs|
    ensures r.consumed <= |inputs| && r.frames <= r.renders <= r.consumed
    ensures r.model.viewIndex == m.viewIndex
    ensures r.consumed < |inputs| ==> r.model.quitting && r.renders + 1 == r.consumed
  {
    if |inputs| == 0 then LoopResult(m, 0, 0, 0)
    else
      var handled := Feed(m, inputs[0]);
      if handled.quitting then LoopResult(handled, 1, 0, 0)
      else
        var rest := Run(RenderModel(handled), inputs[1..]);
        LoopResult(rest.model, rest.consumed + 1, rest.renders + 1,
                   rest.frames + (if handled.active.Dirty() then 1 else 0))
  }

  /** A run over the inputs after the first `i`, seen from the start of the whole sequence. */
  function Shift(r: LoopResult, i: nat, frames: nat): LoopResult
  {
    LoopResult(r.model, i + r.consumed, i + r.renders, frames + r.frames)
  }

  /**
   * Part way through a run from `start`: `done` inputs have been read and `frames` frames
   * drawn since the first render, the application now stands at `m`, and `rest` is unread.
   */
  ghost predicate Resumes(start: AppModel, inputs: seq<TermEvent>, m: AppModel, rest: seq<TermEvent>,
                          done: nat, frames: nat)
  {
    && LoopSafe(start, inputs) && LoopSafe(m, rest)
    && Run(start, inputs) == Shift(Run(m, rest), done, frames)
  }

  /** The next input is fed; if that makes the application quit, the run ends there. */
  lemma ResumesThenQuits(start: AppModel, inputs: seq<TermEvent>, m: AppModel, rest: seq<TermEvent>,
                         done: nat, frames: nat)
    requires Resumes(start, inputs, m, rest, done, frames) && |rest| > 0
    ensures CanFeed(m, rest[0])
    ensures Feed(m, rest[0]).quitting ==>
      Run(start, inputs) == LoopResult(Feed(m, rest[0]), done + 1, done, frames)
  {
  }

  /** The next input is fed; if the application goes on, it renders and the run resumes after it. */
  lemma ResumesThenRenders(start: AppModel, inputs: seq<TermEvent>, m: AppModel, rest: seq<TermEvent>,
                           done: nat, frames: nat)
    requires Resumes(start, inputs, m, rest, done, frames) && |rest| > 0 && CanFeed(m, rest[0])
    ensures var handled := Feed(m, rest[0]);
            !handled.quitting ==>
              Resumes(start, inputs, RenderModel(handled), rest[1..], done + 1,
                      frames + if handled.active.Dirty() then 1 else 0)
  {
  }

  /** With nothing left to read, the run has rendered after every input. */
  lemma ResumesAtEnd(start: AppModel, inputs: seq<TermEvent>, m: AppModel, done: nat, frames: nat)
    requires Resumes(start, inputs, m, [], done, frames)
    ensures Run(start, inputs) == LoopResult(m, done, done, frames)
  {
  }

  /** Only Quit sets the quit flag, and nothing clears it. */
  lemma FeedQuitting(m: AppModel, input: TermEvent)
    requires CanFeed(m, input)
    ensures Feed(m, input).quitting == (m.quitting || KeyToEvent(input) == Some(Events.Quit))
    ensures RenderModel(Feed(m, input)).quitting == Feed(m, input).quitting
  {
  }

  /**
   * The loop reads exactly up to the first quitting key and no further, rendering after
   * every input before it.
   */
  lemma {:induction false} RunStopsAtFirstQuit(m: AppModel, inputs: seq<TermEvent>, j: nat)
    requires LoopSafe(m, inputs) && !m.quitting
    requires j < |inputs| && KeyToEvent(inputs[j]) == Some(Events.Quit)
    requires forall i :: 0 <= i < j ==> KeyToEvent(inputs[i]) != Some(Events.Quit)
    ensures Run(m, inputs).consumed == j + 1 && Run(m, inputs).renders == j
    ensures Run(m, inputs).model.quitting
    decreases j
  {
    FeedQuitting(m, inputs[0]);
    if j > 0 {
      var next := RenderModel(Feed(m, inputs[0]));
      forall i | 0 <= i < j - 1
        ensures KeyToEvent(inputs[1..][i]) != Some(Events.Quit)
      {
        assert inputs[1..][i] == inputs[i + 1];
      }
      RunStopsAtFirstQuit(next, inputs[1..], j - 1);
    }
  }

  /** Without a quitting key the loop reads every input and renders after each of them. */
  lemma {:induction false} RunWithoutQuit(m: AppModel, inputs: seq<TermEvent>)
    requires LoopSafe(m, inputs) && !m.quitting
    requires forall i :: 0 <= i < |inputs| ==> KeyToEvent(inputs[i]) != Some(Events.Quit)
    ensures Run(m, inputs).consumed == Run(m, inputs).renders == |inputs|
    ensures !Run(m, inputs).model.quitting
    decreases |inputs|
  {
    if |inputs| > 0 {
      FeedQuitting(m, inputs[0]);
      var next := RenderModel(Feed(m, inputs[0]));
      forall i | 0 <= i < |inputs| - 1
        ensures KeyToEvent(inputs[1..][i]) != Some(Events.Quit)
      {
        assert inputs[1..][i] == inputs[i + 1];
      }
      RunWithoutQuit(next, inputs[1..]);
    }
  }

  /** A detail view, or a list with items and an in-range hover, survives any input sequence. */
  lemma {:induction false} SafeWhenWellFormed(m: AppModel, inputs: seq<TermEvent>)
    requires Views.WellFormed(m.active)
    ensures LoopSafe(m, inputs)
    decreases |inputs|
  {
    if |inputs| > 0 {
      var input := inputs[0];
      if KeyToEvent(input).Some? && KeyToEvent(input).value != Events.Quit {
        var e := KeyToEvent(input).value;
        Views.WellFormedPreserved(m.active, e);
        Views.WellFormedPreserved(Views.Handled(m.active, e), e);
      } else {
        Views.WellFormedPreserved(m.active, Events.Quit);
      }
      SafeWhenWellFormed(RenderModel(Feed(m, input)), inputs[1..]);
    }
  }

  /** The application as `main` builds it: a fresh state record and the pull-request list. */
  function InitialModel(pulls: seq<PullRequest>): (m: AppModel)
    ensures m.dirty && m.viewIndex == 0 && !m.quitting && m.active.Dirty()
    ensures m.active == Views.ListView(PullRequests.ListState(pulls, None, true))
  {
    AppModel(true, 0, false, Views.ListView(PullRequests.ListState(pulls, None, true)))
  }

  /**
   * An empty list already fails at the first `k`: hovering up computes the last index of
   * no items. With at least one pull request nothing can fail.
   */
  lemma InitialSafety(pulls: seq<PullRequest>, inputs: seq<TermEvent>)
    ensures |pulls| > 0 ==> LoopSafe(RenderModel(InitialModel(pulls)), inputs)
    ensures |pulls| == 0 && |inputs| > 0 && inputs[0] == KeyPress(Char('k')) ==>
      !LoopSafe(RenderModel(InitialModel(pulls)), inputs)
  {
    if |pulls| > 0 {
      SafeWhenWellFormed(RenderModel(InitialModel(pulls)), inputs);
    }
  }

  /**
   * On the list view, `j` and `k` move the hover down and up and mark both the view and
   * the application dirty; `h`, `l` and Backspace reach the view but leave it as it was.
   */
  lemma KeysOnList(m: AppModel, input: TermEvent)
    requires Views.WellFormed(m.active) && m.active.ListView?
    ensures CanFeed(m, input)
    ensures var items, hovered := m.active.list.items, m.active.list.hovered;
            && (input == KeyPress(Char('j')) ==>
                  Feed(m, input).active == Views.ListView(PullRequests.ListState(items, PullRequests.HoverDownIndex(hovered, |items|), true)))
            && (input == KeyPress(Char('k')) ==>
                  Feed(m, input).active == Views.ListView(PullRequests.ListState(items, PullRequests.HoverUpIndex(hovered, |items|), true)))
            && (input in {KeyPress(Char('h')), KeyPress(Char('l')), KeyPress(Backspace)} ==>
                  Feed(m, input) == m.(dirty := !m.dirty))
  {
    if KeyToEvent(input).Some? {
      Views.WellFormedPreserved(m.active, KeyToEvent(input).value);
    }
  }

  /**
   * One pass of the loop body: map the input, hand the event to the application when there
   * is one, report whether it is quitting, and otherwise render.
   */
  method Step(app: App, input: TermEvent) returns (quit: bool, drawn: bool)
    requires app.Valid() && CanFeed(app.Model(), input)
    modifies app.state, app.Active().Obj()
    ensures app.Valid() && app.state.viewIndex == old(app.state.viewIndex)
    ensures var handled := Feed(old(app.Model()), input);
            && quit == handled.quitting
            && app.Model() == (if quit then handled else RenderModel(handled))
            && drawn == (!quit && handled.active.Dirty())
  {
    var event := KeyToEvent(input);
    if event.Some? {
      app.HandleEvent(event.value);
    }
    quit := app.ShouldQuit();
    if quit {
      drawn := false;
    } else {
      drawn := app.Render();
    }
  }

  /**
   * The loop: one render before the first input, then each input is mapped, handled when
   * it maps to an event, checked for quitting and followed by a render.
   */
  method EventLoop(app: App, inputs: seq<TermEvent>) returns (consumed: nat, renderCalls: nat, frames: nat)
    requires app.Valid()
    requires LoopSafe(RenderModel(app.Model()), inputs)
    modifies app.state, app.Active().Obj()
    ensures app.Valid()
    ensures var r := Run(RenderModel(old(app.Model())), inputs);
            && app.Model() == r.model && consumed == r.consumed && renderCalls == r.renders + 1
            && frames == r.frames + (if old(app.Model()).active.Dirty() then 1 else 0)
  {
    ghost var start := RenderModel(app.Model());
    ghost var firstFrame := if app.Model().active.Dirty() then 1 else 0;
    var drawn := app.Render();
    renderCalls := 1;
    frames := if drawn then 1 else 0;
    ghost var loopFrames: nat := 0;
    var rest := inputs;
    consumed := 0;
    while rest != []
      invariant app.Valid() && app.Active() == old(app.Active())
      invariant renderCalls == consumed + 1 && frames == loopFrames + firstFrame
      invariant Resumes(start, inputs, app.Model(), rest, consumed, loopFrames)
      decreases |rest|
    {
      ResumesThenQuits(start, inputs, app.Model(), rest, consumed, loopFrames);
      ResumesThenRenders(start, inputs, app.Model(), rest, consumed, loopFrames);
      var quit;
      quit, drawn := Step(app, rest[0]);
      consumed := consumed + 1;
      if quit {
        return;
      }
      rest := rest[1..];
      renderCalls := renderCalls + 1;
      if drawn {
        frames := frames + 1;
        loopFrames := loopFrames + 1;
      }
    }
    ResumesAtEnd(start, inputs, app.Model(), consumed, loopFrames);
  }

  /**
   * `main` without the terminal: the user's state record, one list view over the pull
   * requests, an initial render and the loop over the inputs.
   */
  method Session(user: User, pulls: seq<PullRequest>, inputs: seq<TermEvent>)
    returns (consumed: nat, renderCalls: nat, finalModel: AppModel)
    requires LoopSafe(RenderModel(InitialModel(pulls)), inputs)
    ensures var r := Run(RenderModel(InitialModel(pulls)), inputs);
            consumed == r.consumed && renderCalls == r.renders + 1 && finalModel == r.model
  {
    var state := new AppState.ForUser(user);
    var list := new PullRequests.PullRequestList(pulls);
    var app := new App(state, [Views.List(list)]);
    assert app.Model() == InitialModel(pulls);
    var frames;
    consumed, renderCalls, frames := EventLoop(app, inputs);
    finalModel := app.Model();
  }
}
