/**
 The application shell's state: the signed-in user, whether the login modal
 is open, and the modal's error line. The modal's callbacks update it; the
 admin route is guarded on the user's role.
 */
module App {
  import opened Types
  import opened AuthModal

  /**
   The shell's own state (`user`, `authOpen`) combined with the login modal's
   error line, which the modal keeps in a state of its own.
   */
  datatype AppState = AppState(user: Option<User>, authOpen: bool, authError: string)

  /** Nobody signed in, modal closed. */
  const InitialState := AppState(None, false, "")

  /** Signing in replaces the current user, whoever it was. */
  function HandleLogin(st: AppState, username: string, role: UserRole): (st': AppState)
    ensures st'.user == Some(User(username, role))
    ensures st'.authOpen == st.authOpen && st'.authError == st.authError
  {
    st.(user := Some(User(username, role)))
  }

  function HandleLogout(st: AppState): (st': AppState)
    ensures st'.user.None?
    ensures st'.authOpen == st.authOpen && st'.authError == st.authError
  {
    st.(user := None)
  }

  /**
   The state change of one modal callback, as the shell wires them: the
   error line is the modal's own, `onLogin` is `HandleLogin` and `onClose`
   closes the modal. Each callback touches its own part of the state only.
   */
  function Apply(st: AppState, e: Event): (st': AppState)
    ensures e.SetError? ==> st'.authError == e.message && st'.user == st.user && st'.authOpen == st.authOpen
    ensures e.OnLogin? ==>
      st'.user == Some(User(e.username, e.role)) && st'.authOpen == st.authOpen && st'.authError == st.authError
    ensures e.OnClose? ==> !st'.authOpen && st'.user == st.user && st'.authError == st.authError
  {
    match e
    case SetError(message) => st.(authError := message)
    case OnLogin(username, role) => HandleLogin(st, username, role)
    case OnClose => st.(authOpen := false)
  }

  /** The state change of a run of callbacks, in order. */
  function ApplyAll(st: AppState, evs: seq<Event>): AppState
    decreases |evs|
  {
    if evs == [] then st else ApplyAll(Apply(st, evs[0]), evs[1..])
  }

  /** Running two batches of callbacks one after the other is running them as one batch. */
  lemma {:induction false} ApplyAllAppend(st: AppState, a: seq<Event>, b: seq<Event>)
    ensures ApplyAll(st, a + b) == ApplyAll(ApplyAll(st, a), b)
    decreases |a|
  {
    if a == [] {
      assert a + b == b;
    } else {
      assert (a + b)[0] == a[0] && (a + b)[1..] == a[1..] + b;
      ApplyAllAppend(Apply(st, a[0]), a[1..], b);
    }
  }

  /** What the `/admin` route renders. */
  datatype AdminView = AdminPanelPage | AccessDenied

  function AdminRoute(user: Option<User>): (v: AdminView)
    ensures v == AdminPanelPage <==> user.Some? && user.value.role == ADMIN
  {
    match user
    case Some(u) => if u.role == ADMIN then AdminPanelPage else AccessDenied
    case None => AccessDenied
  }

  /**
   At start-up and after any sign-out the admin page is closed; signing in
   as an administrator opens it again.
   */
  lemma AdminDeniedWhenSignedOut(st: AppState, name: string)
    ensures AdminRoute(InitialState.user) == AccessDenied
    ensures AdminRoute(HandleLogout(st).user) == AccessDenied
    ensures AdminRoute(HandleLogin(HandleLogout(st), name, ADMIN).user) == AdminPanelPage
  {
  }

  /**
   One submit of the login modal, seen from the shell: an empty field leaves
   the user and the modal as they were and shows the error; `admin`/`admin`
   signs in as the administrator and closes the modal; anything else signs
   in the typed name as a regular user and closes the modal.
   */
  lemma SubmitOutcome(st: AppState, username: string, password: string)
    ensures var st' := ApplyAll(st, HandleSubmit(username, password));
      && (username == "" || password == "" ==>
            st'.user == st.user && st'.authOpen == st.authOpen && st'.authError == EmptyFieldsError)
      && (username == AdminUsername && password == AdminPassword ==>
            st'.user == Some(User(AdminDisplayName, ADMIN)) && !st'.authOpen && st'.authError == "")
      && (username != "" && password != "" && !(username == AdminUsername && password == AdminPassword) ==>
            st'.user == Some(User(username, USER)) && !st'.authOpen && st'.authError == "")
  {
    var evs := HandleSubmit(username, password);
    var st1 := Apply(st, evs[0]);
    var st2 := Apply(st1, evs[1]);
    assert ApplyAll(st, evs) == ApplyAll(st1, evs[1..]) == ApplyAll(st2, evs[2..]);
    if |evs| == 3 {
      var st3 := Apply(st2, evs[2]);
      assert ApplyAll(st2, evs[2..]) == ApplyAll(st3, evs[3..]) == st3;
    } else {
      assert evs[2..] == [];
    }
  }

  /** Only the `admin`/`admin` submit opens the admin panel to whoever was signed in before. */
  lemma SubmitGrantsAdminOnlyToAdmin(st: AppState, username: string, password: string)
    requires username != "" && password != ""
    ensures AdminRoute(ApplyAll(st, HandleSubmit(username, password)).user) == AdminPanelPage
        <==> username == AdminUsername && password == AdminPassword
  {
    SubmitOutcome(st, username, password);
  }
}
