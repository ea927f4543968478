/** Record shapes shared by the local store, the two issue providers and the
    two auth providers (src/types/index.ts and MockUser). */
module Types {

  datatype Option<+T> = None | Some(value: T) {
    function GetOr(default: T): T {
      match this
      case Some(v) => v
      case None => default
    }
  }

  /** 'Pending' | 'In Progress' | 'Fixed' */
  datatype Status = Pending | InProgress | Fixed

  /** A maintenance report. `dateSubmitted` is a timestamp in milliseconds. */
  datatype Issue = Issue(
    id: string,
    title: string,
    description: string,
    submittedBy: string,
    dateSubmitted: int,
    upvotes: seq<string>,
    status: Status)

  datatype CreateIssueData = CreateIssueData(title: string, description: string)

  /** A partial patch: `None` means the key is absent and the field is left unchanged. */
  datatype UpdateIssueData = UpdateIssueData(
    title: Option<string>,
    description: Option<string>,
    status: Option<Status>)

  /** The stored identity record `{email, uid}`. An identity without an email
      address is represented by the empty email. */
  datatype User = User(email: string, uid: string)

  /** Why a provider operation rejected. */
  datatype Error =
    | Unauthenticated       // no current user
    | NotConfigured         // remote mode without a backend client
    | BackendFailure        // the backend call reported an error
    | InvalidCredentials    // demo login with an unknown email or wrong password
    | SignupUnavailable     // signup attempted in local mode

  /** Whether a provider operation resolved or rejected. */
  datatype Outcome = Resolved | Rejected(error: Error)

  /** What an abstracted backend call reported. */
  datatype BackendResult = Success | Failure
}
