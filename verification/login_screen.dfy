/** The login and register forms (src/components/LoginScreen.tsx). There is
    no authentication: the role is read off the e-mail address. */
module LoginScreen {
  import opened Strings
  import App

  /** The role `handleLogin` derives: a case-sensitive substring test for
      "owner" first, then "manager", otherwise employee. */
  function RoleFromEmail(email: string): (role: App.Role)
    ensures role == App.Owner <==> Includes(email, "owner")
    ensures role == App.Manager <==> !Includes(email, "owner") && Includes(email, "manager")
    ensures role == App.Employee <==> !Includes(email, "owner") && !Includes(email, "manager")
  {
    if Includes(email, "owner") then App.Owner
    else if Includes(email, "manager") then App.Manager
    else App.Employee
  }

  /** `email.split('@')[0]`: the text before the first `@`, or the whole
      address when it has none. */
  function NameFromEmail(email: string): (name: string)
    ensures '@' !in name
    ensures |name| <= |email| && name == email[..|name|]
    ensures |name| == |email| || email[|name|] == '@'
  {
    Split(email, '@')[0]
  }

  /** `handleLogin`: the user handed to `App`. The id is a fresh random
      string, passed in; the password plays no part. */
  function Login(email: string, password: string, freshId: string): (u: App.User)
    ensures u.email == email && u.id == freshId
    ensures u.role == RoleFromEmail(email)
    ensures u.name == NameFromEmail(email)
  {
    App.User(freshId, NameFromEmail(email), email, RoleFromEmail(email))
  }

  /** `handleRegister`: the chosen role and the typed name, verbatim. */
  function Register(name: string, email: string, password: string, role: App.Role, freshId: string): (u: App.User)
    ensures u.name == name && u.email == email && u.role == role && u.id == freshId
  {
    App.User(freshId, name, email, role)
  }

  /** The password never influences the signed-in user. */
  lemma LoginIgnoresPassword(email: string, p1: string, p2: string, freshId: string)
    ensures Login(email, p1, freshId) == Login(email, p2, freshId)
  {
  }

  /** An address containing both words is an owner's. */
  lemma OwnerWinsOverManager(email: string)
    requires Includes(email, "owner") && Includes(email, "manager")
    ensures RoleFromEmail(email) == App.Owner
  {
  }

  /** The test is case-sensitive: an upper-case "OWNER" address is an employee's. */
  lemma UpperCaseIsEmployee()
    ensures RoleFromEmail("OWNER@x") == App.Employee
  {
    FirstCharAbsent("OWNER@x", "owner");
    FirstCharAbsent("OWNER@x", "manager");
  }

  /** Signing in through the form lands on the dashboard of the derived role. */
  lemma LoginRoutesByEmail(s: App.State, email: string, password: string, freshId: string)
    ensures var r := App.HandleLogin(s, Login(email, password, freshId));
      && (r.screen == App.OwnerDashboard <==> Includes(email, "owner"))
      && (r.screen == App.ManagerDashboard <==> !Includes(email, "owner") && Includes(email, "manager"))
      && (r.screen == App.EmployeeDashboard <==> !Includes(email, "owner") && !Includes(email, "manager"))
  {
  }
}
