/**
 * The application controller: a state record (dirty marker, active view index, quit flag,
 * user) and the list of views; events are routed to the active view or set the quit flag,
 * and rendering is gated on the active view's own dirty flag.
 */
module Application {
  import opened Models
  import opened Events
  import Views

  class AppState {
    var dirty: bool
    var viewIndex: nat
    var quitting: bool
    var user: User

    /** `for_user`: dirty, first view, not quitting, the given user. */
    constructor ForUser(user: User)
      ensures dirty && viewIndex == 0 && !quitting && this.user == user
    {
      dirty := true;
      this.user := user;
      viewIndex := 0;
      quitting := false;
    }

    /** `toggle_dirty`: negates the dirty marker and nothing else. */
    method ToggleDirty()
      modifies this
      ensures dirty == !old(dirty)
      ensures viewIndex == old(viewIndex) && quitting == old(quitting) && user == old(user)
    {
      dirty := !dirty;
    }
  }

  /** The observable state of the application: its state record and the active view's fields. */
  datatype AppModel = AppModel(dirty: bool, viewIndex: nat, quitting: bool, active: Views.ViewState)

  /**
   * `handle_event`: Quit sets the quit flag, anything else goes to the active view; then dirty
   * flips. Every event flips the marker exactly once and keeps the view index; the quit flag is
   * set by Quit and never cleared.
   */
  function HandleModel(m: AppModel, e: Event): (r: AppModel)
    requires e != Quit ==> Views.CanHandle(m.active, e)
    ensures r.dirty == !m.dirty && r.viewIndex == m.viewIndex
    ensures r.quitting == (m.quitting || e == Quit)
  {
    match e
    case Quit => m.(quitting := true, dirty := !m.dirty)
    case _ => m.(active := Views.Handled(m.active, e), dirty := !m.dirty)
  }

  /** `render`: only when the active view is dirty, render it and flip the dirty marker. */
  function RenderModel(m: AppModel): (r: AppModel)
    ensures r.viewIndex == m.viewIndex && r.quitting == m.quitting
    ensures r.dirty != m.dirty <==> m.active.Dirty()
  {
    if m.active.Dirty() then m.(active := Views.Rendered(m.active), dirty := !m.dirty) else m
  }

  /** The active view sees every event except Quit, once; Quit leaves it untouched. */
  lemma HandleModelEffects(m: AppModel, e: Event)
    requires e != Quit ==> Views.CanHandle(m.active, e)
    ensures HandleModel(m, e).active == (if e == Quit then m.active else Views.Handled(m.active, e))
  {
  }

  /**
   * Render gating: a clean view is not redrawn, and a list view is clean after one render,
   * so a second render does nothing; a dirty detail view stays dirty, so every render draws
   * it again and flips the dirty marker each time.
   */
  lemma RenderGating(m: AppModel)
    ensures !m.active.Dirty() ==> RenderModel(m) == m
    ensures m.active.ListView? ==> RenderModel(RenderModel(m)) == RenderModel(m)
    ensures m.active.DetailView? && m.active.dirty ==>
      RenderModel(m).active.Dirty() && RenderModel(RenderModel(m)).dirty == m.dirty
  {
    Views.RenderedDirtiness(m.active);
  }

  class App {
    var state: AppState
    var views: seq<Views.View>

    constructor (state: AppState, views: seq<Views.View>)
      ensures this.state == state && this.views == views
    {
      this.state := state;
      this.views := views;
    }

    /**
     * The active index names a view, and that view's object is not the state record
     * (each view is a separate box owned by the application).
     */
    ghost predicate Valid()
      reads this, state
    {
      state.viewIndex < |views| && views[state.viewIndex].Obj() != state
    }

    function Active(): Views.View
      reads this, state
      requires state.viewIndex < |views|
    {
      views[state.viewIndex]
    }

    function Model(): AppModel
      reads this, state, Active().Obj()
      requires Valid()
    {
      AppModel(state.dirty, state.viewIndex, state.quitting, Active().State())
    }

    function ShouldQuit(): (quit: bool)
      reads this, state
      requires Valid()
      ensures quit == Model().quitting
    {
      state.quitting
    }

    /** `dirty()`: the active view's own flag, not the state record's dirty marker. */
    function Dirty(): (dirty: bool)
      reads this, state, Active().Obj()
      requires Valid()
      ensures dirty == Model().active.Dirty()
    {
      Views.Dirty(Active())
    }

    /** `render`: draws (and flips the dirty marker) only when the active view is dirty. */
    method Render() returns (drawn: bool)
      requires Valid()
      modifies state, Active().Obj()
      ensures Valid() && views == old(views)
      ensures drawn == old(Model()).active.Dirty()
      ensures Model() == RenderModel(old(Model()))
      ensures state.user == old(state.user)
    {
      if Dirty() {
        Views.Render(views[state.viewIndex]);
        state.ToggleDirty();
        drawn := true;
      } else {
        drawn := false;
      }
    }

    /** `handle_event`: Quit sets the quit flag, any other event goes to the active view; dirty flips. */
    method HandleEvent(e: Event)
      requires Valid()
      requires e != Quit ==> Views.CanHandle(Model().active, e)
      modifies state, Active().Obj()
      ensures Valid() && views == old(views)
      ensures Model() == HandleModel(old(Model()), e)
      ensures state.user == old(state.user)
    {
      match e {
        case Quit => state.quitting := true;
        case _ => Views.HandleEvent(views[state.viewIndex], e);
      }
      state.ToggleDirty();
    }
  }

  /** The toggle documented on `toggle_dirty`: true becomes false, and two toggles restore it. */
  method ToggleDirtyScenario(user: User)
  {
    var state := new AppState.ForUser(user);
    assert state.dirty;
    state.ToggleDirty();
    assert !state.dirty;
    state.ToggleDirty();
    assert state.dirty && state.user == user;
  }
}
