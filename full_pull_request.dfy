/** The detail view of one pull request: it only displays, so no event changes it. */
module FullPullRequests {
  import opened Models
  import opened Events

  class FullPullRequest {
    var dirty: bool
    var item: PullRequest

    /** `new`: a dirty view of the given item. */
    constructor (item: PullRequest)
      ensures dirty && this.item == item
    {
      dirty := true;
      this.item := item;
    }

    /** `render` writes the item's lines and leaves the view as it was: in particular still dirty. */
    method Render()
      modifies this
      ensures dirty == old(dirty) && item == old(item)
    {
    }

    /** `handle_event` ignores every event. */
    method HandleEvent(e: Event)
      modifies this
      ensures dirty == old(dirty) && item == old(item)
    {
    }

    /** `dirty()`: the flag set when the view is built; neither Render nor HandleEvent clears it. */
    function Dirty(): (d: bool)
      reads this
      ensures d == dirty
    {
      dirty
    }

    /** `select`: a detail view never asks for anything. */
    function Select(): (command: Option<Command>)
      ensures command == None
    {
      None
    }
  }
}
