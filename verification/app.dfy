/** The application shell (src/App.tsx): shared record types, the session
    state (current screen, signed-in user, three selections), the login,
    logout and navigation handlers, and which component each screen renders. */
module App {
  import opened Common

  datatype Role = Owner | Manager | Employee

  datatype User = User(id: string, name: string, email: string, role: Role)

  /** The two work areas, `'kitchen' | 'coffee-bar'`. */
  datatype Station = Kitchen | CoffeeBar

  /** The shift boundary of a checklist task, `'opening' | 'closing'`. */
  datatype Category = Opening | Closing

  datatype TaskStatus = Pending | Completed

  datatype Repetition = Daily | Weekly

  datatype Task = Task(
    id: string,
    name: string,
    qrCodeId: string,
    station: Station,
    category: Category,
    description: string,
    status: TaskStatus,
    assignedBy: Option<string>,
    repetition: Option<Repetition>)

  datatype Recipe = Recipe(
    id: string,
    name: string,
    description: string,
    imageUrl: string,
    videoDuration: string,
    videoUrl: string,
    ingredients: seq<string>,
    steps: seq<string>,
    tools: seq<string>,
    category: string)

  /** The `Screen` string union. */
  datatype Screen =
    | LoginScreen | OwnerDashboard | ManagerDashboard | EmployeeDashboard
    | Calendar | TaskDetail | QrScan | TaskHistory | Notifications | Settings
    | RecipesList | RecipeDetail
    | OwnerStore | OwnerSales | OwnerInventory | OwnerRequests | OwnerPayroll
    | OwnerEmployees | OwnerManagerTasks
    | ManagerTaskManagement | ManagerReports | ManagerInventory | ManagerRequests
    | ManagerPayroll | ManagerEmployees
    | PhotoViewer

  /** The six `manager-*` sub-screens, which `renderScreen` has no case for. */
  predicate IsManagerSubScreen(s: Screen)
  {
    s.ManagerTaskManagement? || s.ManagerReports? || s.ManagerInventory?
    || s.ManagerRequests? || s.ManagerPayroll? || s.ManagerEmployees?
  }

  /** The component `renderScreen` returns. */
  datatype Component =
    | LoginView | OwnerDashboardView | ManagerDashboardView | EmployeeDashboardView
    | TaskCalendarView | TaskDetailView | QrScanView | TaskHistoryView
    | NotificationsView | SettingsView | RecipesListView | RecipeDetailView
    | OwnerStoreView | OwnerSalesView | OwnerInventoryView | OwnerRequestsView
    | OwnerPayrollView | OwnerEmployeesView | OwnerManagerTasksView | PhotoViewerView

  /** The `useState` hooks of `App`. */
  datatype State = State(
    screen: Screen,
    user: Option<User>,
    selectedTask: Option<Task>,
    selectedTaskForScan: Option<Task>,
    selectedRecipe: Option<Recipe>)

  /** The state `App` mounts with. */
  function Initial(): (s: State)
    ensures s.screen == LoginScreen && s.user == None
    ensures s.selectedTask == None && s.selectedTaskForScan == None && s.selectedRecipe == None
  {
    State(LoginScreen, None, None, None, None)
  }

  /** Dashboard a role lands on after login. */
  function HomeScreen(role: Role): (s: Screen)
    ensures role == Owner <==> s == OwnerDashboard
    ensures role == Manager <==> s == ManagerDashboard
    ensures role == Employee <==> s == EmployeeDashboard
  {
    match role
    case Owner => OwnerDashboard
    case Manager => ManagerDashboard
    case Employee => EmployeeDashboard
  }

  /** `handleLogin`: store the user and route by role; selections are untouched. */
  function HandleLogin(s: State, u: User): (r: State)
    ensures r.user == Some(u)
    ensures r.screen == HomeScreen(u.role)
    ensures r.selectedTask == s.selectedTask
    ensures r.selectedTaskForScan == s.selectedTaskForScan
    ensures r.selectedRecipe == s.selectedRecipe
  {
    s.(user := Some(u), screen := HomeScreen(u.role))
  }

  /** `handleLogout`: whatever the state, back to the initial one. */
  function HandleLogout(s: State): (r: State)
    ensures r == Initial()
  {
    State(LoginScreen, None, None, None, None)
  }

  /** `navigateTo(screen, task?, recipe?)`. */
  function NavigateTo(s: State, screen: Screen, task: Option<Task>, recipe: Option<Recipe>): (r: State)
    ensures r.screen == screen
    ensures r.user == s.user
    ensures screen == TaskDetail && task.Some? ==> r.selectedTask == task
    ensures r.selectedTask != s.selectedTask ==> screen == TaskDetail && task.Some?
    ensures screen == QrScan && task.Some? ==> r.selectedTaskForScan == task
    ensures r.selectedTaskForScan != s.selectedTaskForScan ==> screen == QrScan && task.Some?
    ensures screen == RecipeDetail && recipe.Some? ==> r.selectedRecipe == recipe
    ensures r.selectedRecipe != s.selectedRecipe ==> screen == RecipeDetail && recipe.Some?
  {
    var s1 := if screen == TaskDetail && task.Some? then s.(selectedTask := task) else s;
    var s2 := if screen == QrScan && task.Some? then s1.(selectedTaskForScan := task) else s1;
    var s3 := if screen == RecipeDetail && recipe.Some? then s2.(selectedRecipe := recipe) else s2;
    s3.(screen := screen)
  }

  /** `renderScreen`'s switch; the `default` branch shows the login screen. */
  function Render(screen: Screen): (c: Component)
    ensures c == LoginView <==> screen == LoginScreen || IsManagerSubScreen(screen)
  {
    match screen
    case LoginScreen => LoginView
    case OwnerDashboard => OwnerDashboardView
    case ManagerDashboard => ManagerDashboardView
    case EmployeeDashboard => EmployeeDashboardView
    case Calendar => TaskCalendarView
    case TaskDetail => TaskDetailView
    case QrScan => QrScanView
    case TaskHistory => TaskHistoryView
    case Notifications => NotificationsView
    case Settings => SettingsView
    case RecipesList => RecipesListView
    case RecipeDetail => RecipeDetailView
    case OwnerStore => OwnerStoreView
    case OwnerSales => OwnerSalesView
    case OwnerInventory => OwnerInventoryView
    case OwnerRequests => OwnerRequestsView
    case OwnerPayroll => OwnerPayrollView
    case OwnerEmployees => OwnerEmployeesView
    case OwnerManagerTasks => OwnerManagerTasksView
    case PhotoViewer => PhotoViewerView
    case _ => LoginView
  }

  /** The QR scan screen's `onBack` and `onComplete` props: both are
      `navigateTo('employee-dashboard')` with no task or recipe. */
  function QrScanExit(s: State): (r: State)
    ensures r.screen == EmployeeDashboard
    ensures r.user == s.user
    ensures r.selectedTask == s.selectedTask
    ensures r.selectedTaskForScan == s.selectedTaskForScan
    ensures r.selectedRecipe == s.selectedRecipe
  {
    NavigateTo(s, EmployeeDashboard, None, None)
  }

  /** Navigating to a screen that sets none of the selections changes only the screen. */
  lemma NavigateElsewhereKeepsSelections(s: State, screen: Screen, task: Option<Task>, recipe: Option<Recipe>)
    requires screen != TaskDetail && screen != QrScan && screen != RecipeDetail
    ensures NavigateTo(s, screen, task, recipe) == s.(screen := screen)
  {
  }

  /** A signed-in user who navigates to a `manager-*` sub-screen sees the
      login form while still being signed in. */
  lemma ManagerSubScreenShowsLogin(s: State, screen: Screen)
    requires s.user.Some? && IsManagerSubScreen(screen)
    ensures Render(NavigateTo(s, screen, None, None).screen) == LoginView
    ensures NavigateTo(s, screen, None, None).user == s.user
  {
  }

  /** Logging in from the initial state and logging out again returns to
      the initial state. */
  lemma LoginThenLogout(u: User)
    ensures HandleLogout(HandleLogin(Initial(), u)) == Initial()
    ensures Render(HandleLogin(Initial(), u).screen) != LoginView
  {
  }
}
