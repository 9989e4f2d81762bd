/** The closed set of application events and the command a view can hand back. */
module Events {
  import opened Models

  datatype Direction = Left | Right | Down | Up

  datatype Event = Quit | Move(direction: Direction) | Back

  /** What a view asks the application to do when its selection is taken. */
  datatype Command = ShowPull(pull: PullRequest)
}
