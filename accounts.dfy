/** The demo accounts both auth providers accept in local mode. The two
    providers declare the same list each (src/contexts/AuthContext.tsx and
    maintenance-app/src/contexts/AuthContext.tsx); it is declared once here. */
module Accounts {
  const AuthorizedEmails: seq<string> := [
    "admin@fraternity.edu",
    "maintenance@fraternity.edu",
    "president@fraternity.edu",
    "member1@fraternity.edu",
    "member2@fraternity.edu"
  ]

  /** The one password every demo account takes. */
  const DemoPassword: string := "demo123"

  /** The local-mode credential check. */
  predicate DemoCredentialsValid(email: string, password: string) {
    email in AuthorizedEmails && password == DemoPassword
  }
}
