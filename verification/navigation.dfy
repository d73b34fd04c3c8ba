/** The screens of todo.jsx and the controls on them. A control acts only
    while its screen is mounted; the root component (todo.jsx lines
    896-903) mounts the profile, list and new-task screens only while
    someone is signed in. `Run` replays a sequence of clicks from the
    first load, and `Inv` is what every reachable state satisfies. */
module Navigation {
  import opened Base
  import opened Text
  import opened Records
  import opened Service

  /** One user action: a button, or typing into the search box. A task row
      is named by its position in the displayed list. */
  datatype Event =
    | SubmitLogin(email: string, password: string)
    | OpenForgot
    | OpenRegister
    | SubmitRecovery(email: string, generated: RecoveryCode)
    | BackToLogin
    | SubmitCode(entered: string)
    | ResendCode
    | SubmitReset(password: string, confirm: string)
    | SubmitRegister(email: string, password: string, confirm: string, now: int)
    | LeaveRegister
    | ProfileBack
    | EditProfile
    | SaveProfile(email: string, password: string)
    | CancelEdit
    | OpenProfile
    | Logout
    | SetKeyword(keyword: string)
    | OpenNew
    | ToggleRow(row: nat)
    | DeleteRow(row: nat, confirmed: bool)
    | CancelNew
    | CreateTask(title: string, content: string, due: Option<int>, now: int)

  /** The screen whose component holds the control. */
  function Home(e: Event): Screen {
    match e
    case SubmitLogin(_, _) => Login
    case OpenForgot => Login
    case OpenRegister => Login
    case SubmitRecovery(_, _) => ForgotPassword
    case BackToLogin => ForgotPassword
    case SubmitCode(_) => VerifyCode
    case ResendCode => VerifyCode
    case SubmitReset(_, _) => ResetPassword
    case SubmitRegister(_, _, _, _) => Register
    case LeaveRegister => Register
    case ProfileBack => Profile
    case EditProfile => Profile
    case SaveProfile(_, _) => Profile
    case CancelEdit => Profile
    case OpenProfile => List
    case Logout => List
    case SetKeyword(_) => List
    case OpenNew => List
    case ToggleRow(_) => List
    case DeleteRow(_, _) => List
    case CancelNew => New
    case CreateTask(_, _, _, _) => New
  }

  /** The screens only a signed-in user may see. */
  predicate UserScreen(screen: Screen) {
    screen == Profile || screen == List || screen == New
  }

  /** The root component: the screen mounted for `s`, if any. */
  function Rendered(s: Session): Option<Screen> {
    if UserScreen(s.screen) && s.currentUser.None? then None else Some(s.screen)
  }

  /** The control of `e` is on screen: its screen is mounted and, for a task
      row, the row is displayed. */
  predicate Enabled(a: App, e: Event) {
    && Rendered(a.session) == Some(Home(e))
    && (e.ToggleRow? ==> e.row < |VisibleTasks(a)|)
    && (e.DeleteRow? ==> e.row < |VisibleTasks(a)|)
  }

  /** The controls of the sign-in and registration forms. */
  predicate SignInEvent(e: Event) {
    e.SubmitLogin? || e.SubmitRegister?
  }

  /** The controls of the recovery flow. */
  predicate RecoveryEvent(e: Event) {
    e.SubmitRecovery? || e.SubmitCode? || e.SubmitReset?
  }

  /** The controls that call a handler as the signed-in user. */
  predicate AccountEvent(e: Event) {
    e.SaveProfile? || e.Logout? || e.CreateTask?
  }

  /** The buttons of a task row. */
  predicate RowEvent(e: Event) {
    e.ToggleRow? || e.DeleteRow?
  }

  /** The controls that call a handler. */
  predicate CallsHandler(e: Event) {
    SignInEvent(e) || RecoveryEvent(e) || AccountEvent(e) || RowEvent(e)
  }

  function ApplySignIn(a: App, e: Event): App
    requires SignInEvent(e)
  {
    match e
    case SubmitLogin(email, password) => HandleLogin(a, email, password)
    case SubmitRegister(email, password, confirm, now) => HandleRegister(a, email, password, confirm, now)
  }

  function ApplyRecovery(a: App, e: Event): App
    requires RecoveryEvent(e)
  {
    match e
    case SubmitRecovery(email, code) => HandleForgotPassword(a, email, code)
    case SubmitCode(code) => HandleVerifyCode(a, code)
    case SubmitReset(password, confirm) => HandleResetPassword(a, password, confirm)
  }

  function ApplyAccount(a: App, e: Event): App
    requires AccountEvent(e) && a.session.currentUser.Some?
  {
    match e
    case SaveProfile(email, password) => HandleUpdateProfile(a, email, password)
    case Logout => HandleLogout(a)
    case CreateTask(title, content, due, now) => HandleAddTask(a, title, content, due, now)
  }

  function ApplyRow(a: App, e: Event): App
    requires RowEvent(e) && a.session.currentUser.Some? && e.row < |VisibleTasks(a)|
  {
    match e
    case ToggleRow(row) => HandleCompleteTask(a, VisibleTasks(a)[row].id)
    case DeleteRow(row, confirmed) => HandleDeleteTask(a, VisibleTasks(a)[row].id, confirmed)
  }

  /** The controls that only move between screens, edit the search box or
      clear messages. */
  function ApplyPlain(a: App, e: Event): App
    requires !CallsHandler(e)
  {
    var s := a.session;
    match e
    case OpenForgot => a.(session := s.(screen := ForgotPassword, error := [], success := []))
    case OpenRegister => a.(session := s.(screen := Register))
    case BackToLogin => a.(session := s.(screen := Login, error := [], success := []))
    case ResendCode => a.(session := s.(screen := ForgotPassword, error := []))
    case LeaveRegister => a.(session := s.(screen := Login, error := []))
    case ProfileBack => a.(session := s.(screen := List))
    case EditProfile => a.(session := s.(error := [], success := []))
    case CancelEdit => a.(session := s.(error := [], success := []))
    case OpenProfile => a.(session := s.(screen := Profile))
    case SetKeyword(keyword) => a.(session := s.(searchKeyword := keyword))
    case OpenNew => a.(session := s.(screen := New))
    case CancelNew => a.(session := s.(screen := List, error := []))
  }

  /** The effect of a control that is on screen. */
  function Apply(a: App, e: Event): App
    requires Enabled(a, e)
  {
    if SignInEvent(e) then ApplySignIn(a, e)
    else if RecoveryEvent(e) then ApplyRecovery(a, e)
    else if AccountEvent(e) then ApplyAccount(a, e)
    else if RowEvent(e) then ApplyRow(a, e)
    else ApplyPlain(a, e)
  }

  /** One user action; a control that is not on screen cannot be used. */
  function Step(a: App, e: Event): App {
    if Enabled(a, e) then Apply(a, e) else a
  }

  /** A sequence of user actions, first to last. */
  function Run(a: App, es: seq<Event>): App
    decreases |es|
  {
    if es == [] then a else Run(Step(a, es[0]), es[1..])
  }

  /** The first load with an empty store. */
  const Start: App := App(Initial, LoggedOut)

  /** Someone is signed in exactly on the user screens. */
  ghost predicate SignedInOnUserScreens(s: Session) {
    s.currentUser.Some? <==> UserScreen(s.screen)
  }

  /** The signed-in user is a stored record. */
  ghost predicate CurrentUserStored(a: App) {
    a.session.currentUser.Some? ==> a.session.currentUser.value in a.db.users
  }

  /** On the code and reset screens a recovery is under way: the e-mail
      belongs to an account and the code is four digits. */
  ghost predicate RecoveryPending(a: App) {
    (a.session.screen == VerifyCode || a.session.screen == ResetPassword) ==>
      && EmailOwner(a.db.users, a.session.recoveryEmail).Some?
      && |a.session.recoveryCode| == 4
      && (forall i | 0 <= i < 4 :: IsDigit(a.session.recoveryCode[i]))
  }

  /** What every reachable state satisfies. */
  ghost predicate Inv(a: App) {
    Valid(a.db) && SignedInOnUserScreens(a.session) && CurrentUserStored(a) && RecoveryPending(a)
  }

  lemma StartInv()
    ensures Inv(Start)
  {
    InitialValid();
  }

  /** The signed-in user's tasks are the only ones the list shows. */
  lemma RowOwned(a: App, row: nat)
    requires a.session.currentUser.Some? && row < |VisibleTasks(a)|
    ensures VisibleTasks(a)[row] in a.db.tasks
    ensures VisibleTasks(a)[row].userId == a.session.currentUser.value.id
  {
    Search.VisibleOnlyOwn(a.db.tasks, CurrentUserId(a.session), a.session.searchKeyword, VisibleTasks(a)[row]);
  }

  lemma LoginKeepsInv(a: App, email: string, password: string)
    requires Inv(a) && a.session.screen == Login
    ensures Inv(HandleLogin(a, email, password))
  {
  }

  lemma RecoveryKeepsInv(a: App, email: string, code: RecoveryCode)
    requires Inv(a) && a.session.screen == ForgotPassword
    ensures Inv(HandleForgotPassword(a, email, code))
  {
  }

  lemma VerifyKeepsInv(a: App, code: string)
    requires Inv(a) && a.session.screen == VerifyCode
    ensures Inv(HandleVerifyCode(a, code))
  {
  }

  lemma ResetKeepsInv(a: App, password: string, confirm: string)
    requires Inv(a) && a.session.screen == ResetPassword
    ensures Inv(HandleResetPassword(a, password, confirm))
  {
    SetPasswordKeepsValid(a.db, a.session.recoveryEmail, password);
  }

  lemma RegisterKeepsInv(a: App, email: string, password: string, confirm: string, now: int)
    requires Inv(a) && a.session.screen == Register
    ensures Inv(HandleRegister(a, email, password, confirm, now))
  {
    var r := HandleRegister(a, email, password, confirm, now);
    if r.session.error == [] {
      AddUserKeepsValid(a.db, email, password, now);
    }
  }

  lemma ProfileKeepsInv(a: App, email: string, password: string)
    requires Inv(a) && a.session.screen == Profile
    ensures Inv(HandleUpdateProfile(a, email, password))
  {
    var me := a.session.currentUser.value;
    var r := HandleUpdateProfile(a, email, password);
    if r.session.error == [] {
      UpdateUserKeepsValid(a.db, me.id, email, password);
      var k :| 0 <= k < |a.db.users| && a.db.users[k] == me;
      UpdateUserChangesOne(a.db, email, password, k);
      assert r.db.users[k] == Patch(me, email, password);
    }
  }

  lemma AddTaskKeepsInv(a: App, title: string, content: string, due: Option<int>, now: int)
    requires Inv(a) && a.session.screen == New
    ensures Inv(HandleAddTask(a, title, content, due, now))
  {
    var me := a.session.currentUser.value;
    var k :| 0 <= k < |a.db.users| && a.db.users[k] == me;
    assert HasUser(a.db.users, me.id);
    AddTaskKeepsValid(a.db, me.id, title, content, due, now);
  }

  lemma RowKeepsInv(a: App, taskId: int, confirmed: bool)
    requires Inv(a) && a.session.screen == List
    ensures Inv(HandleCompleteTask(a, taskId))
    ensures Inv(HandleDeleteTask(a, taskId, confirmed))
  {
    ToggleKeepsValid(a.db, taskId, a.session.currentUser.value.id);
    DeleteKeepsValid(a.db, taskId, a.session.currentUser.value.id);
  }

  /** The controls that only move between screens or clear messages keep the
      invariant. */
  lemma PlainStepKeepsInv(a: App, e: Event)
    requires Inv(a) && Enabled(a, e) && !CallsHandler(e)
    ensures Inv(ApplyPlain(a, e))
  {
  }

  lemma SignInStepKeepsInv(a: App, e: Event)
    requires Inv(a) && Enabled(a, e) && SignInEvent(e)
    ensures Inv(ApplySignIn(a, e))
  {
    match e
    case SubmitLogin(email, password) => LoginKeepsInv(a, email, password);
    case SubmitRegister(email, password, confirm, now) => RegisterKeepsInv(a, email, password, confirm, now);
  }

  lemma RecoveryStepKeepsInv(a: App, e: Event)
    requires Inv(a) && Enabled(a, e) && RecoveryEvent(e)
    ensures Inv(ApplyRecovery(a, e))
  {
    match e
    case SubmitRecovery(email, code) => RecoveryKeepsInv(a, email, code);
    case SubmitCode(code) => VerifyKeepsInv(a, code);
    case SubmitReset(password, confirm) => ResetKeepsInv(a, password, confirm);
  }

  lemma AccountStepKeepsInv(a: App, e: Event)
    requires Inv(a) && Enabled(a, e) && AccountEvent(e)
    ensures Inv(ApplyAccount(a, e))
  {
    match e
    case SaveProfile(email, password) => ProfileKeepsInv(a, email, password);
    case CreateTask(title, content, due, now) => AddTaskKeepsInv(a, title, content, due, now);
    case Logout =>
  }

  lemma RowStepKeepsInv(a: App, e: Event)
    requires Inv(a) && RowEvent(e) && a.session.screen == List
    requires a.session.currentUser.Some? && e.row < |VisibleTasks(a)|
    ensures Inv(ApplyRow(a, e))
  {
    RowKeepsInv(a, VisibleTasks(a)[e.row].id, e.DeleteRow? && e.confirmed);
  }

  /** A row button calls its row handler. */
  lemma RowDispatch(a: App, e: Event)
    requires Enabled(a, e) && RowEvent(e)
    ensures a.session.currentUser.Some? && a.session.screen == List
    ensures Apply(a, e) == ApplyRow(a, e)
  {
  }

  /** Every user action keeps the invariant. */
  lemma StepKeepsInv(a: App, e: Event)
    requires Inv(a)
    ensures Inv(Step(a, e))
  {
    if Enabled(a, e) {
      if SignInEvent(e) {
        SignInStepKeepsInv(a, e);
      } else if RecoveryEvent(e) {
        RecoveryStepKeepsInv(a, e);
      } else if AccountEvent(e) {
        AccountStepKeepsInv(a, e);
      } else if RowEvent(e) {
        RowDispatch(a, e);
        RowStepKeepsInv(a, e);
      } else {
        PlainStepKeepsInv(a, e);
      }
    }
  }

  /** Every sequence of user actions keeps the invariant. */
  lemma {:induction false} RunKeepsInv(a: App, es: seq<Event>)
    requires Inv(a)
    ensures Inv(Run(a, es))
    decreases |es|
  {
    if es != [] {
      StepKeepsInv(a, es[0]);
      RunKeepsInv(Step(a, es[0]), es[1..]);
    }
  }

  /** The render guards never blank the page: in every reachable state the
      screen named by `screen` is the one mounted. */
  lemma ScreenAlwaysRendered(es: seq<Event>)
    ensures Rendered(Run(Start, es).session) == Some(Run(Start, es).session.screen)
  {
    StartInv();
    RunKeepsInv(Start, es);
  }
  /** The buttons that only navigate change neither the store, the signed-in
      user nor a recovery under way; in particular "Resend Code" keeps the
      code that was generated. */
  lemma PlainKeepsAccount(a: App, e: Event)
    requires !CallsHandler(e)
    ensures var b := Step(a, e);
      && b.db == a.db
      && b.session.currentUser == a.session.currentUser
      && b.session.recoveryEmail == a.session.recoveryEmail
      && b.session.recoveryCode == a.session.recoveryCode
  {
    if Enabled(a, e) {
      assert Apply(a, e) == ApplyPlain(a, e);
    }
  }

  /** The reset screen is entered only from the code screen, by entering the
      code that was generated. */
  lemma ResetOnlyAfterCode(a: App, e: Event)
    requires a.session.screen != ResetPassword && Step(a, e).session.screen == ResetPassword
    ensures a.session.screen == VerifyCode && e == SubmitCode(a.session.recoveryCode)
  {
  }

  /** Signing in happens only through the login form with stored
      credentials, or through registering a new account. */
  lemma SignInOnlyByCredentials(a: App, e: Event)
    requires a.session.currentUser.None? && Step(a, e).session.currentUser.Some?
    ensures || (e.SubmitLogin? && Step(a, e).session.currentUser == CredentialsOwner(a.db.users, e.email, e.password))
            || (e.SubmitRegister? && Step(a, e).db == AddUser(a.db, e.email, e.password, e.now)
                && Step(a, e).session.currentUser == Some(User(a.db.nextUserId, e.email, e.password, e.now)))
  {
  }

  /** The id counters of `b` are no lower than those of `a`. */
  predicate CountersKept(a: App, b: App) {
    b.db.nextUserId >= a.db.nextUserId && b.db.nextTaskId >= a.db.nextTaskId
  }

  lemma ApplyKeepsCounters(a: App, e: Event)
    requires Enabled(a, e)
    ensures CountersKept(a, Apply(a, e))
  {
    if SignInEvent(e) {
      assert CountersKept(a, ApplySignIn(a, e));
    } else if RecoveryEvent(e) {
      assert CountersKept(a, ApplyRecovery(a, e));
    } else if AccountEvent(e) {
      assert CountersKept(a, ApplyAccount(a, e));
    } else if RowEvent(e) {
      assert CountersKept(a, ApplyRow(a, e));
    }
  }

  /** The id counters never go down, so no id is handed out twice. */
  lemma CountersNeverDecrease(a: App, e: Event)
    ensures Step(a, e).db.nextUserId >= a.db.nextUserId
    ensures Step(a, e).db.nextTaskId >= a.db.nextTaskId
  {
    if Enabled(a, e) {
      ApplyKeepsCounters(a, e);
    }
  }

  /** `b` holds the task `t` exactly when `a` does. */
  predicate TaskKept(a: App, b: App, t: Task) {
    t in b.db.tasks <==> t in a.db.tasks
  }

  /** The row buttons leave other users' tasks alone. */
  lemma RowLeavesOthers(a: App, e: Event, t: Task)
    requires RowEvent(e) && a.session.currentUser.Some? && e.row < |VisibleTasks(a)|
    requires t.userId != a.session.currentUser.value.id
    ensures TaskKept(a, ApplyRow(a, e), t)
  {
    var me := a.session.currentUser.value.id;
    var id := VisibleTasks(a)[e.row].id;
    if e.ToggleRow? {
      var r := Toggle(a.db, id, me);
      if t in r.tasks {
        var i :| 0 <= i < |r.tasks| && r.tasks[i] == t;
        assert !Owned(a.db.tasks[i], id, me);
      }
      if t in a.db.tasks {
        var i :| 0 <= i < |a.db.tasks| && a.db.tasks[i] == t;
        assert r.tasks[i] == t;
      }
    }
  }

  /** The other handlers of the signed-in screens add at most a task of the
      signed-in user. */
  lemma AccountLeavesOthers(a: App, e: Event, t: Task)
    requires AccountEvent(e) && a.session.currentUser.Some?
    requires t.userId != a.session.currentUser.value.id
    ensures TaskKept(a, ApplyAccount(a, e), t)
  {
  }

  lemma ApplyLeavesOthers(a: App, e: Event, t: Task)
    requires Enabled(a, e) && a.session.currentUser.Some? && UserScreen(a.session.screen)
    requires t.userId != a.session.currentUser.value.id
    ensures TaskKept(a, Apply(a, e), t)
  {
    if AccountEvent(e) {
      AccountLeavesOthers(a, e, t);
    } else if RowEvent(e) {
      RowLeavesOthers(a, e, t);
    } else {
      assert ApplyPlain(a, e).db == a.db;
    }
  }

  /** A signed-in user's action never adds, removes or changes another
      user's task. */
  lemma OthersTasksUntouched(a: App, e: Event, t: Task)
    requires Inv(a) && a.session.currentUser.Some? && t.userId != a.session.currentUser.value.id
    ensures t in Step(a, e).db.tasks <==> t in a.db.tasks
  {
    if Enabled(a, e) {
      ApplyLeavesOthers(a, e, t);
    }
  }

  /** Deleting a displayed row, once confirmed, removes exactly that task
      from the store and keeps the others in their order. */
  lemma DeleteRowRemovesIt(a: App, row: nat)
    requires Inv(a) && Enabled(a, DeleteRow(row, true))
    ensures exists k ::
      && 0 <= k < |a.db.tasks|
      && a.db.tasks[k] == VisibleTasks(a)[row]
      && Step(a, DeleteRow(row, true)).db.tasks == a.db.tasks[..k] + a.db.tasks[k + 1..]
  {
    RowOwned(a, row);
    var t := VisibleTasks(a)[row];
    var me := a.session.currentUser.value.id;
    assert Step(a, DeleteRow(row, true)).db == Delete(a.db, t.id, me);
    var k :| 0 <= k < |a.db.tasks| && a.db.tasks[k] == t;
    DeleteRemovesOne(a.db, t.id, me, k);
  }

  /** Toggling a displayed row flips exactly that task. */
  lemma ToggleRowFlipsIt(a: App, row: nat)
    requires Inv(a) && Enabled(a, ToggleRow(row))
    ensures exists k ::
      && 0 <= k < |a.db.tasks|
      && a.db.tasks[k] == VisibleTasks(a)[row]
      && Step(a, ToggleRow(row)).db.tasks == a.db.tasks[k := a.db.tasks[k].(completed := !a.db.tasks[k].completed)]
  {
    RowOwned(a, row);
    var t := VisibleTasks(a)[row];
    var me := a.session.currentUser.value.id;
    assert Step(a, ToggleRow(row)).db == Toggle(a.db, t.id, me);
    var k :| 0 <= k < |a.db.tasks| && a.db.tasks[k] == t;
    ToggleFlipsOne(a.db, t.id, me, k);
  }

  /** Three actions in a row. */
  lemma RunThree(a: App, e0: Event, e1: Event, e2: Event)
    ensures Run(a, [e0, e1, e2]) == Step(Step(Step(a, e0), e1), e2)
  {
    var b := Step(a, e0);
    var c := Step(b, e1);
    assert [e0, e1, e2][1..] == [e1, e2];
    assert Run(a, [e0, e1, e2]) == Run(b, [e1, e2]);
    assert [e1, e2][1..] == [e2];
    assert Run(b, [e1, e2]) == Run(c, [e2]);
    assert [e2][1..] == [];
    assert Run(c, [e2]) == Run(Step(c, e2), []);
  }

  /** Three actions whose first two outcomes are known. */
  lemma RunThreeVia(a: App, e0: Event, e1: Event, e2: Event, b: App, c: App)
    requires Step(a, e0) == b && Step(b, e1) == c
    ensures Run(a, [e0, e1, e2]) == Step(c, e2)
  {
    RunThree(a, e0, e1, e2);
  }

  /** A registration that passes every check signs the new account in. */
  lemma RegisterSucceeds(a: App, email: string, password: string, now: int)
    requires a.session.currentUser.None? && a.session.screen == Register
    requires IsEmail(email) && NewPasswordOk(password, password) && EmailOwner(a.db.users, email).None?
    ensures Step(a, SubmitRegister(email, password, password, now))
         == App(AddUser(a.db, email, password, now),
                a.session.(error := [], currentUser := Some(User(a.db.nextUserId, email, password, now)), screen := List))
  {
    assert Step(a, SubmitRegister(email, password, password, now)) == HandleRegister(a, email, password, password, now);
  }

  /** Signing out from the task list. */
  lemma LogoutSignsOut(b: App)
    requires b.session.currentUser.Some? && b.session.screen == List
    ensures Step(b, Logout) == HandleLogout(b)
  {
  }

  /** Signing in with the e-mail and password of a stored account, in a
      store with distinct e-mails, signs that account in. */
  lemma LoginSucceeds(a: App, k: int, password: string)
    requires a.session.currentUser.None? && a.session.screen == Login
    requires UniqueEmails(a.db.users) && 0 <= k < |a.db.users|
    requires IsEmail(a.db.users[k].email) && !IsBlank(password) && a.db.users[k].password == password
    ensures Step(a, SubmitLogin(a.db.users[k].email, password)).session.currentUser == Some(a.db.users[k])
  {
    assert Step(a, SubmitLogin(a.db.users[k].email, password)) == HandleLogin(a, a.db.users[k].email, password);
    CredentialsUnique(a.db.users, k, password);
  }

  /** A new account can sign in again after signing out. */
  lemma RegisterLogoutLogin(a: App, email: string, password: string, now: int)
    requires Inv(a) && a.session.screen == Register
    requires IsEmail(email) && NewPasswordOk(password, password) && EmailOwner(a.db.users, email).None?
    ensures Run(a, [SubmitRegister(email, password, password, now), Logout, SubmitLogin(email, password)]).session.currentUser
         == Some(User(a.db.nextUserId, email, password, now))
  {
    RegisterSucceeds(a, email, password, now);
    var b := App(AddUser(a.db, email, password, now),
                 a.session.(error := [], currentUser := Some(User(a.db.nextUserId, email, password, now)), screen := List));
    LogoutSignsOut(b);
    var c := HandleLogout(b);
    RunThreeVia(a, SubmitRegister(email, password, password, now), Logout, SubmitLogin(email, password), b, c);
    AddUserKeepsValid(a.db, email, password, now);
    var k := |a.db.users|;
    assert c.db.users[k] == User(a.db.nextUserId, email, password, now);
    LoginSucceeds(c, k, password);
  }

  /** Asking for a code for a stored e-mail opens the code screen. */
  lemma CodeSent(a: App, email: string, code: RecoveryCode)
    requires a.session.screen == ForgotPassword && IsEmail(email) && EmailOwner(a.db.users, email).Some?
    ensures Step(a, SubmitRecovery(email, code))
         == a.(session := a.session.(error := [], recoveryCode := Decimal(code), recoveryEmail := email,
                                     screen := VerifyCode))
  {
    assert Step(a, SubmitRecovery(email, code)) == HandleForgotPassword(a, email, code);
  }

  /** Entering the generated code opens the reset screen. */
  lemma CodeAccepted(b: App)
    requires b.session.screen == VerifyCode
    ensures Step(b, SubmitCode(b.session.recoveryCode)) == b.(session := b.session.(error := [], screen := ResetPassword))
  {
    assert Step(b, SubmitCode(b.session.recoveryCode)) == HandleVerifyCode(b, b.session.recoveryCode);
  }

  /** On the reset screen the submitted passwords go to the reset handler. */
  lemma ResetAccepted(c: App, password: string)
    requires c.session.screen == ResetPassword
    ensures Step(c, SubmitReset(password, password)) == HandleResetPassword(c, password, password)
  {
    assert Enabled(c, SubmitReset(password, password));
  }

  /** Password recovery end to end: the account holding the e-mail gets the
      new password and nothing else in the store changes. */
  lemma Recover(a: App, email: string, code: RecoveryCode, password: string, k: int)
    requires Inv(a) && a.session.screen == ForgotPassword
    requires IsEmail(email) && NewPasswordOk(password, password)
    requires 0 <= k < |a.db.users| && a.db.users[k].email == email
    ensures var r := Run(a, [SubmitRecovery(email, code), SubmitCode(Decimal(code)), SubmitReset(password, password)]);
      && r.session.screen == Login
      && r.session.currentUser.None?
      && r.session.success == PasswordResetDone
      && r.db == a.db.(users := a.db.users[k := a.db.users[k].(password := password)])
  {
    CodeSent(a, email, code);
    var b := a.(session := a.session.(error := [], recoveryCode := Decimal(code), recoveryEmail := email,
                                      screen := VerifyCode));
    CodeAccepted(b);
    var c := b.(session := b.session.(error := [], screen := ResetPassword));
    RunThreeVia(a, SubmitRecovery(email, code), SubmitCode(Decimal(code)), SubmitReset(password, password), b, c);
    ResetAccepted(c, password);
    SetPasswordChangesOne(a.db, email, password, k);
  }

  /** After a recovery the account signs in with the new password. */
  lemma RecoverThenLogin(a: App, email: string, code: RecoveryCode, password: string, k: int)
    requires Inv(a) && a.session.screen == ForgotPassword
    requires IsEmail(email) && NewPasswordOk(password, password)
    requires 0 <= k < |a.db.users| && a.db.users[k].email == email
    ensures var r := Run(a, [SubmitRecovery(email, code), SubmitCode(Decimal(code)), SubmitReset(password, password)]);
      Step(r, SubmitLogin(email, password)).session.currentUser == Some(a.db.users[k].(password := password))
  {
    Recover(a, email, code, password, k);
    var r := Run(a, [SubmitRecovery(email, code), SubmitCode(Decimal(code)), SubmitReset(password, password)]);
    SetPasswordKeepsValid(a.db, email, password);
    SetPasswordChangesOne(a.db, email, password, k);
    assert r.db.users[k] == a.db.users[k].(password := password);
    LoginSucceeds(r, k, password);
  }
}
