/**
 * The component interface shared by the two views (render, handle an event, report
 * dirtiness), as a sum over the two view objects, with a value-level snapshot of each.
 */
module Views {
  import opened Models
  import opened Events
  import PullRequests
  import opened FullPullRequests

  /** A snapshot of a view's fields. */
  datatype ViewState = ListView(list: PullRequests.ListState) | DetailView(item: PullRequest, dirty: bool)
  {
    /** What the view's `dirty()` answers. */
    predicate Dirty()
    {
      match this
      case ListView(list) => list.dirty
      case DetailView(_, dirty) => dirty
    }
  }

  /** The event can be handled without an arithmetic failure. */
  predicate CanHandle(s: ViewState, e: Event)
  {
    s.ListView? ==> PullRequests.CanHandle(s.list, e)
  }

  /** The effect of `handle_event` on a view's state. */
  function Handled(s: ViewState, e: Event): (r: ViewState)
    requires CanHandle(s, e)
    ensures r.ListView? == s.ListView?
    ensures s.DetailView? ==> r == s
    ensures s.ListView? ==> r.list.items == s.list.items
  {
    match s
    case ListView(list) => ListView(PullRequests.Handled(list, e))
    case DetailView(_, _) => s
  }

  /** The effect of `render` on a view's state. */
  function Rendered(s: ViewState): (r: ViewState)
    ensures r.ListView? == s.ListView?
    ensures s.ListView? ==> r.list.items == s.list.items && r.list.hovered == s.list.hovered
  {
    match s
    case ListView(list) => ListView(PullRequests.Rendered(list))
    case DetailView(_, _) => s
  }

  /**
   * Rendering cleans a list view, but a detail view stays exactly as it was, so a dirty
   * detail view is dirty again at the next frame.
   */
  lemma RenderedDirtiness(s: ViewState)
    ensures s.ListView? ==> !Rendered(s).Dirty()
    ensures s.DetailView? ==> Rendered(s) == s && Rendered(s).Dirty() == s.Dirty()
  {
  }

  /** A list view with items and an in-range hover keeps both through any event and any render. */
  predicate WellFormed(s: ViewState)
  {
    s.ListView? ==> |s.list.items| > 0 && PullRequests.HoverInRange(s.list)
  }

  lemma WellFormedPreserved(s: ViewState, e: Event)
    requires WellFormed(s)
    ensures CanHandle(s, e)
    ensures WellFormed(Handled(s, e)) && WellFormed(Rendered(s))
  {
    if s.ListView? {
      PullRequests.HandledKeepsHoverInRange(s.list, e);
    }
  }

  /** A boxed view: one of the two view objects. */
  datatype View = List(list: PullRequests.PullRequestList) | Detail(detail: FullPullRequest)
  {
    /** The object holding the view's fields. */
    function Obj(): object
    {
      match this
      case List(list) => list
      case Detail(detail) => detail
    }

    function State(): ViewState
      reads Obj()
    {
      match this
      case List(list) => ListView(list.State())
      case Detail(detail) => DetailView(detail.item, detail.dirty)
    }
  }

  /** `dirty()` through the interface. */
  function Dirty(v: View): (d: bool)
    reads v.Obj()
    ensures d == v.State().Dirty()
  {
    match v
    case List(list) => list.Dirty()
    case Detail(detail) => detail.Dirty()
  }

  /** `handle_event` through the interface. */
  method HandleEvent(v: View, e: Event)
    requires CanHandle(v.State(), e)
    modifies v.Obj()
    ensures v.State() == Handled(old(v.State()), e)
  {
    match v {
      case List(list) => list.HandleEvent(e);
      case Detail(detail) => detail.HandleEvent(e);
    }
  }

  /** `render` through the interface (the terminal output itself is not modelled). */
  method Render(v: View)
    modifies v.Obj()
    ensures v.State() == Rendered(old(v.State()))
  {
    match v {
      case List(list) =>
        var _, _ := list.Render();
      case Detail(detail) => detail.Render();
    }
  }
}
