/** The `handle*` functions of todo.jsx as total transitions of the app
    state: the persisted store together with the transient session. Every
    handler first clears `error`; a failed check stores its message in
    `error` and changes nothing else (the profile update also clears
    `success`). Time and the random recovery code are parameters. */
module Service {
  import opened Base
  import opened Text
  import opened Validation
  import opened Records
  import Search

  datatype Screen = Login | Register | ForgotPassword | VerifyCode | ResetPassword | Profile | List | New

  /** The transient state kept beside the store. */
  datatype Session = Session(
    currentUser: Option<User>,
    screen: Screen,
    searchKeyword: string,
    error: string,
    success: string,
    recoveryEmail: string,
    recoveryCode: string)

  datatype App = App(db: Store, session: Session)

  /** The session every start begins with. */
  const LoggedOut: Session := Session(None, Login, "", "", "", "", "")

  /** `Math.floor(1000 + Math.random() * 9000)`: a whole number in 1000..9999. */
  type RecoveryCode = n: int | 1000 <= n <= 9999 witness 1000

  const EmailOrPasswordIncorrect := "Email or password incorrect"
  const EmailNotFound := "Email not found"
  const InvalidCode := "Invalid code"
  const PasswordResetDone := "Password reset successfully. Please login."
  const EmailInUse := "This email is already in use"
  const EmailInUseByOther := "Email already in use"
  const ProfileUpdated := "Profile updated successfully"

  const LoginRules := [FieldRules("email", [Required, Email]), FieldRules("password", [Required])]
  const RecoveryRules := [FieldRules("email", [Required, Email])]
  const ResetRules := [
    FieldRules("password", [Required, MinLength(8)]),
    FieldRules("password_confirmation", [Required, Match("password")])]
  const RegisterRules := [
    FieldRules("email", [Required, Email]),
    FieldRules("password", [Required, MinLength(8)]),
    FieldRules("password_confirmation", [Required, Match("password")])]
  const ProfileRules := [FieldRules("email", [Required, Email]), FieldRules("password", [MinLength(8)])]
  const TaskRules := [FieldRules("title", [Required, MaxLength(50)])]

  /** A new password: not blank, at least 8 characters, confirmed exactly. */
  predicate NewPasswordOk(password: string, confirm: string) {
    !IsBlank(password) && |password| >= 8 && confirm == password
  }

  /** A profile password: empty (keep the old one) or at least 8 characters. */
  predicate ProfilePasswordOk(password: string) {
    password == [] || |password| >= 8
  }

  /** A task title: not blank and at most 50 characters. */
  predicate TitleOk(title: string) {
    !IsBlank(title) && |title| <= 50
  }

  /** An e-mail is never blank. */
  lemma EmailNotBlank(s: string)
    requires IsEmail(s)
    ensures s != [] && !IsBlank(s)
  {
    var at := IndexOf(s, '@').value;
    assert !IsSpace(s[at]);
  }

  /** `['required', 'email']` passes exactly the e-mails. */
  lemma EmailField(data: Data, field: string)
    requires field in data
    ensures FieldMessage(data, FieldRules(field, [Required, Email])).None? <==> IsEmail(data[field])
  {
    RequiredRejectsBlank(data[field], data);
    if IsEmail(data[field]) {
      EmailNotBlank(data[field]);
    }
  }

  /** `['required']` passes exactly the non-blank values. */
  lemma RequiredField(data: Data, field: string)
    requires field in data
    ensures FieldMessage(data, FieldRules(field, [Required])).None? <==> !IsBlank(data[field])
  {
    RequiredRejectsBlank(data[field], data);
  }

  /** `['required', 'minLength:8']` passes the non-blank values of 8 or more characters. */
  lemma NewPasswordField(data: Data, field: string)
    requires field in data
    ensures FieldMessage(data, FieldRules(field, [Required, MinLength(8)])).None?
        <==> !IsBlank(data[field]) && |data[field]| >= 8
  {
    RequiredRejectsBlank(data[field], data);
  }

  /** `['required', 'match:password']` passes a non-blank exact copy of the password. */
  lemma ConfirmField(data: Data, field: string)
    requires field in data && "password" in data
    ensures FieldMessage(data, FieldRules(field, [Required, Match("password")])).None?
        <==> !IsBlank(data[field]) && data[field] == data["password"]
  {
    RequiredRejectsBlank(data[field], data);
  }

  /** `['minLength:8']` alone passes the empty value: the password is optional. */
  lemma OptionalPasswordField(data: Data, field: string)
    requires field in data
    ensures FieldMessage(data, FieldRules(field, [MinLength(8)])).None? <==> ProfilePasswordOk(data[field])
  {
  }

  /** `['required', 'maxLength:50']` passes the non-blank values of at most 50 characters. */
  lemma TitleField(data: Data, field: string)
    requires field in data
    ensures FieldMessage(data, FieldRules(field, [Required, MaxLength(50)])).None? <==> TitleOk(data[field])
  {
    RequiredRejectsBlank(data[field], data);
  }

  /** The object `{ email, password }` the login and profile forms submit. */
  function LoginData(email: string, password: string): (d: Data)
    ensures "email" in d && "password" in d && d["email"] == email && d["password"] == password
  {
    map["email" := email, "password" := password]
  }

  /** The object `{ password, password_confirmation }` of the reset form. */
  function ResetData(password: string, confirm: string): (d: Data)
    ensures "password" in d && "password_confirmation" in d
    ensures d["password"] == password && d["password_confirmation"] == confirm
  {
    map["password" := password, "password_confirmation" := confirm]
  }

  /** The object `{ email, password, password_confirmation }` of the registration form. */
  function RegisterData(email: string, password: string, confirm: string): (d: Data)
    ensures "email" in d && "password" in d && "password_confirmation" in d
    ensures d["email"] == email && d["password"] == password && d["password_confirmation"] == confirm
  {
    map["email" := email, "password" := password, "password_confirmation" := confirm]
  }

  /** A one-field object: `{ email }` of the recovery form, `{ title }` of
      the task form. */
  function OneField(field: string, value: string): (d: Data)
    ensures field in d && d[field] == value
  {
    map[field := value]
  }

  /** The login rules pass exactly an e-mail with a non-blank password. */
  lemma LoginRulesMeaning(data: Data)
    requires "email" in data && "password" in data
    ensures Validate(data, LoginRules).success <==> IsEmail(data["email"]) && !IsBlank(data["password"])
  {
    ValidateFields(data, LoginRules);
    EmailField(data, "email");
    RequiredField(data, "password");
  }

  /** The recovery rules pass exactly an e-mail. */
  lemma RecoveryRulesMeaning(data: Data)
    requires "email" in data
    ensures Validate(data, RecoveryRules).success <==> IsEmail(data["email"])
  {
    ValidateFields(data, RecoveryRules);
    EmailField(data, "email");
  }

  /** The reset rules pass exactly an acceptable, confirmed password. */
  lemma ResetRulesMeaning(data: Data)
    requires "password" in data && "password_confirmation" in data
    ensures Validate(data, ResetRules).success <==> NewPasswordOk(data["password"], data["password_confirmation"])
  {
    ValidateFields(data, ResetRules);
    NewPasswordField(data, "password");
    ConfirmField(data, "password_confirmation");
  }

  /** The registration rules pass exactly an e-mail with an acceptable,
      confirmed password. */
  lemma RegisterRulesMeaning(data: Data)
    requires "email" in data && "password" in data && "password_confirmation" in data
    ensures Validate(data, RegisterRules).success
        <==> IsEmail(data["email"]) && NewPasswordOk(data["password"], data["password_confirmation"])
  {
    ValidateFields(data, RegisterRules);
    EmailField(data, "email");
    NewPasswordField(data, "password");
    ConfirmField(data, "password_confirmation");
  }

  /** The profile rules pass exactly an e-mail with an empty or long enough
      password. */
  lemma ProfileRulesMeaning(data: Data)
    requires "email" in data && "password" in data
    ensures Validate(data, ProfileRules).success <==> IsEmail(data["email"]) && ProfilePasswordOk(data["password"])
  {
    ValidateFields(data, ProfileRules);
    EmailField(data, "email");
    OptionalPasswordField(data, "password");
  }

  /** The task rules pass exactly an acceptable title. */
  lemma TaskRulesMeaning(data: Data)
    requires "title" in data
    ensures Validate(data, TaskRules).success <==> TitleOk(data["title"])
  {
    ValidateFields(data, TaskRules);
    TitleField(data, "title");
  }

  /** A failed check: only `error` changes, to a non-empty message. */
  ghost predicate Rejected(a: App, r: App) {
    r.db == a.db && r.session == a.session.(error := r.session.error) && r.session.error != []
  }

  /** `setError(...)` after a failed check. */
  function Reject(a: App, message: string): App {
    a.(session := a.session.(error := message))
  }

  /** `handleLogin(email, password)`. */
  function HandleLogin(a: App, email: string, password: string): (r: App)
    ensures r.db == a.db
    ensures r.session.error == [] <==>
      IsEmail(email) && !IsBlank(password) && CredentialsOwner(a.db.users, email, password).Some?
    ensures r.session.error == [] ==>
      r.session == a.session.(error := [], currentUser := CredentialsOwner(a.db.users, email, password), screen := List)
    ensures r.session.error != [] ==> Rejected(a, r)
    ensures IsEmail(email) && !IsBlank(password) && CredentialsOwner(a.db.users, email, password).None? ==>
      r.session.error == EmailOrPasswordIncorrect
    ensures !Validate(LoginData(email, password), LoginRules).success ==>
      r.session.error == Surfaced(Validate(LoginData(email, password), LoginRules))
  {
    var v := Validate(LoginData(email, password), LoginRules);
    LoginRulesMeaning(LoginData(email, password));
    if !v.success then
      SurfacedNonEmpty(LoginData(email, password), LoginRules);
      Reject(a, Surfaced(v))
    else match CredentialsOwner(a.db.users, email, password)
      case None => Reject(a, EmailOrPasswordIncorrect)
      case Some(u) => a.(session := a.session.(error := [], currentUser := Some(u), screen := List))
  }

  /** `handleForgotPassword(email)` with the random code supplied. */
  function HandleForgotPassword(a: App, email: string, code: RecoveryCode): (r: App)
    ensures r.db == a.db
    ensures r.session.error == [] <==> IsEmail(email) && EmailOwner(a.db.users, email).Some?
    ensures r.session.error == [] ==>
      && r.session == a.session.(error := [], recoveryCode := r.session.recoveryCode,
                                 recoveryEmail := email, screen := VerifyCode)
      && |r.session.recoveryCode| == 4
      && (forall i | 0 <= i < 4 :: IsDigit(r.session.recoveryCode[i]))
      && DigitsValue(r.session.recoveryCode) == code
    ensures r.session.error != [] ==> Rejected(a, r)
    ensures IsEmail(email) && EmailOwner(a.db.users, email).None? ==> r.session.error == EmailNotFound
    ensures !Validate(OneField("email", email), RecoveryRules).success ==>
      r.session.error == Surfaced(Validate(OneField("email", email), RecoveryRules))
  {
    var v := Validate(OneField("email", email), RecoveryRules);
    RecoveryRulesMeaning(OneField("email", email));
    if !v.success then
      SurfacedNonEmpty(OneField("email", email), RecoveryRules);
      Reject(a, Surfaced(v))
    else if EmailOwner(a.db.users, email).None? then
      Reject(a, EmailNotFound)
    else
      FourDigits(code);
      DecimalRoundTrip(code);
      a.(session := a.session.(error := [], recoveryCode := Decimal(code), recoveryEmail := email, screen := VerifyCode))
  }

  /** `handleVerifyCode(code)`: an exact string comparison. */
  function HandleVerifyCode(a: App, code: string): (r: App)
    ensures r.db == a.db
    ensures r.session.error == [] <==> code == a.session.recoveryCode
    ensures code == a.session.recoveryCode ==> r.session == a.session.(error := [], screen := ResetPassword)
    ensures code != a.session.recoveryCode ==> Rejected(a, r) && r.session.error == InvalidCode
  {
    if code != a.session.recoveryCode then Reject(a, InvalidCode)
    else a.(session := a.session.(error := [], screen := ResetPassword))
  }

  /** `handleResetPassword(password, passwordConfirm)`. */
  function HandleResetPassword(a: App, password: string, confirm: string): (r: App)
    ensures r.session.error == [] <==> NewPasswordOk(password, confirm)
    ensures r.session.error != [] ==> Rejected(a, r)
    ensures r.session.error == [] ==>
      && r.db == SetPassword(a.db, a.session.recoveryEmail, password)
      && r.session == a.session.(error := [], success := PasswordResetDone, screen := Login,
                                 recoveryEmail := [], recoveryCode := [])
    ensures !Validate(ResetData(password, confirm), ResetRules).success ==>
      r.session.error == Surfaced(Validate(ResetData(password, confirm), ResetRules))
  {
    var v := Validate(ResetData(password, confirm), ResetRules);
    ResetRulesMeaning(ResetData(password, confirm));
    if !v.success then
      SurfacedNonEmpty(ResetData(password, confirm), ResetRules);
      Reject(a, Surfaced(v))
    else
      App(SetPassword(a.db, a.session.recoveryEmail, password),
          a.session.(error := [], success := PasswordResetDone, screen := Login,
                     recoveryEmail := [], recoveryCode := []))
  }

  /** `handleRegister(email, password, passwordConfirm)` at time `now`. */
  function HandleRegister(a: App, email: string, password: string, confirm: string, now: int): (r: App)
    ensures r.session.error == [] <==>
      IsEmail(email) && NewPasswordOk(password, confirm) && EmailOwner(a.db.users, email).None?
    ensures r.session.error != [] ==> Rejected(a, r)
    ensures IsEmail(email) && NewPasswordOk(password, confirm) && EmailOwner(a.db.users, email).Some? ==>
      r.session.error == EmailInUse
    ensures r.session.error == [] ==>
      && r.db == AddUser(a.db, email, password, now)
      && r.session == a.session.(error := [], currentUser := Some(r.db.users[|r.db.users| - 1]), screen := List)
    ensures !Validate(RegisterData(email, password, confirm), RegisterRules).success ==>
      r.session.error == Surfaced(Validate(RegisterData(email, password, confirm), RegisterRules))
  {
    var v := Validate(RegisterData(email, password, confirm), RegisterRules);
    RegisterRulesMeaning(RegisterData(email, password, confirm));
    if !v.success then
      SurfacedNonEmpty(RegisterData(email, password, confirm), RegisterRules);
      Reject(a, Surfaced(v))
    else if EmailOwner(a.db.users, email).Some? then
      Reject(a, EmailInUse)
    else
      App(AddUser(a.db, email, password, now),
          a.session.(error := [], currentUser := Some(User(a.db.nextUserId, email, password, now)), screen := List))
  }

  /** `handleUpdateProfile(email, password)`; it reads `currentUser.id`, so
      someone is signed in. */
  function HandleUpdateProfile(a: App, email: string, password: string): (r: App)
    requires a.session.currentUser.Some?
    ensures r.session.screen == a.session.screen
    ensures r.session.error == [] <==>
      IsEmail(email) && ProfilePasswordOk(password)
      && !EmailTakenByOther(a.db.users, email, a.session.currentUser.value.id)
    ensures r.session.error != [] ==>
      r.db == a.db && r.session == a.session.(error := r.session.error, success := [])
    ensures (IsEmail(email) && ProfilePasswordOk(password)
             && EmailTakenByOther(a.db.users, email, a.session.currentUser.value.id)) ==>
      r.session.error == EmailInUseByOther
    ensures r.session.error == [] ==>
      && r.db == UpdateUser(a.db, a.session.currentUser.value.id, email, password)
      && r.session == a.session.(error := [], success := ProfileUpdated,
                                 currentUser := Some(Patch(a.session.currentUser.value, email, password)))
    ensures !Validate(LoginData(email, password), ProfileRules).success ==>
      r.session.error == Surfaced(Validate(LoginData(email, password), ProfileRules))
  {
    var me := a.session.currentUser.value;
    var v := Validate(LoginData(email, password), ProfileRules);
    ProfileRulesMeaning(LoginData(email, password));
    if !v.success then
      SurfacedNonEmpty(LoginData(email, password), ProfileRules);
      a.(session := a.session.(error := Surfaced(v), success := []))
    else if EmailTakenByOther(a.db.users, email, me.id) then
      a.(session := a.session.(error := EmailInUseByOther, success := []))
    else
      App(UpdateUser(a.db, me.id, email, password),
          a.session.(error := [], success := ProfileUpdated, currentUser := Some(Patch(me, email, password))))
  }

  /** `handleAddTask(title, content, completionTime)` at time `now`; the
      task goes to the signed-in user. */
  function HandleAddTask(a: App, title: string, content: string, due: Option<int>, now: int): (r: App)
    requires a.session.currentUser.Some?
    ensures r.session.error == [] <==> TitleOk(title)
    ensures r.session.error != [] ==> Rejected(a, r)
    ensures r.session.error == [] ==>
      && r.db == AddTask(a.db, a.session.currentUser.value.id, title, content, due, now)
      && r.session == a.session.(error := [], screen := List)
    ensures !Validate(OneField("title", title), TaskRules).success ==>
      r.session.error == Surfaced(Validate(OneField("title", title), TaskRules))
  {
    var v := Validate(OneField("title", title), TaskRules);
    TaskRulesMeaning(OneField("title", title));
    if !v.success then
      SurfacedNonEmpty(OneField("title", title), TaskRules);
      Reject(a, Surfaced(v))
    else
      App(AddTask(a.db, a.session.currentUser.value.id, title, content, due, now), a.session.(error := [], screen := List))
  }

  /** `handleCompleteTask(taskId)`: only the store changes. */
  function HandleCompleteTask(a: App, taskId: int): (r: App)
    requires a.session.currentUser.Some?
    ensures r.session == a.session
    ensures r.db == Toggle(a.db, taskId, a.session.currentUser.value.id)
  {
    a.(db := Toggle(a.db, taskId, a.session.currentUser.value.id))
  }

  /** `handleDeleteTask(taskId)`; `confirmed` is the answer to the
      confirmation prompt, and a refusal changes nothing. */
  function HandleDeleteTask(a: App, taskId: int, confirmed: bool): (r: App)
    requires a.session.currentUser.Some?
    ensures r.session == a.session
    ensures r.db == if confirmed then Delete(a.db, taskId, a.session.currentUser.value.id) else a.db
  {
    if !confirmed then a else a.(db := Delete(a.db, taskId, a.session.currentUser.value.id))
  }

  /** `handleLogout()`: the recovery fields are left as they are. */
  function HandleLogout(a: App): (r: App)
    ensures r.db == a.db
    ensures r.session == LoggedOut.(recoveryEmail := a.session.recoveryEmail, recoveryCode := a.session.recoveryCode)
  {
    a.(session := a.session.(currentUser := None, screen := Login, searchKeyword := [], error := [], success := []))
  }

  /** The id `currentUser?.id` the task list filters by. */
  function CurrentUserId(s: Session): Option<int> {
    match s.currentUser
    case None => None
    case Some(u) => Some(u.id)
  }

  /** `getTasks()`. */
  function VisibleTasks(a: App): seq<Task> {
    Search.Visible(a.db.tasks, CurrentUserId(a.session), a.session.searchKeyword)
  }
}
