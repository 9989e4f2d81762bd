/**
 * The records the terminal views display. Only the fields the views read are kept:
 * a pull request's number, title, owner login and state, and a user's identity.
 */
module Models {

  datatype Option<+T> = None | Some(value: T)

  /** A GitHub account. */
  datatype User = User(id: nat, login: string, url: string)

  /** A pull request as the list and detail views see it. */
  datatype PullRequest = PullRequest(number: nat, title: string, login: string, state: string)
}
