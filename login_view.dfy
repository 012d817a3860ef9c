/** The login screen's submit handler. */
module LoginScreen {
  import opened Wrappers
  import opened UserAccountRecord
  import opened UserRecord
  import opened SessionManager

  const UsernameMissing: string := "Please enter your username"
  const PasswordMissing: string := "Please enter your password"
  const LoginRefused: string := "Invalid username or password"

  /** The form's `@State` fields and the `showAuth` binding. */
  class LoginForm {
    var username: string
    var password: string
    var showAlert: bool
    var alertMessage: string
    var showAuth: bool

    constructor (showAuth: bool)
      ensures username == "" && password == "" && !showAlert && alertMessage == ""
      ensures this.showAuth == showAuth
    {
      username := "";
      password := "";
      showAlert := false;
      alertMessage := "";
      this.showAuth := showAuth;
    }

    /**
     * `handleLogin()`: the username is checked before the password, and
     * `signIn` runs only when both are filled in.
     */
    method HandleLogin(um: UserManager) returns (signedIn: bool)
      requires um.Valid()
      modifies this`showAlert, this`alertMessage, this`showAuth, um, um.store
      ensures um.Valid()
      ensures username == "" ==>
                && alertMessage == UsernameMissing && showAlert && showAuth == old(showAuth)
                && !signedIn && um.currentUser == old(um.currentUser) && um.store.entries == old(um.store.entries)
      ensures username != "" && password == "" ==>
                && alertMessage == PasswordMissing && showAlert && showAuth == old(showAuth)
                && !signedIn && um.currentUser == old(um.currentUser) && um.store.entries == old(um.store.entries)
      ensures username != "" && password != "" ==>
                && (signedIn <==> old(um.accountManager.VerifyAccount(username, password)).Some?)
                && (signedIn ==> var account := old(um.accountManager.VerifyAccount(username, password)).value;
                                 && !showAuth && showAlert == old(showAlert) && alertMessage == old(alertMessage)
                                 && um.isAuthenticated
                                 && um.currentUser == Some(NewUser(account.username, account.birthDate))
                                 && um.store.entries == SignedInEntries(old(um.store.entries), username, um.currentUser.value))
                && (!signedIn ==> alertMessage == LoginRefused && showAlert && showAuth == old(showAuth)
                                  && um.currentUser == old(um.currentUser)
                                  && um.store.entries == old(um.store.entries))
      ensures um.accountManager.accounts == old(um.accountManager.accounts)
    {
      signedIn := false;
      if username == "" {
        alertMessage := UsernameMissing;
        showAlert := true;
        return;
      }
      if password == "" {
        alertMessage := PasswordMissing;
        showAlert := true;
        return;
      }
      signedIn := um.SignIn(username, password);
      if signedIn {
        showAuth := false;
      } else {
        alertMessage := LoginRefused;
        showAlert := true;
      }
    }
  }
}
