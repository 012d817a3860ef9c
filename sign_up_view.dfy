/** The sign-up screen: its age test and its submit handler. */
module SignUpScreen {
  import opened Wrappers
  import opened Platform
  import opened UserAccountRecord
  import opened UserRecord
  import opened AccountRegistry
  import opened SessionManager

  const UsernameMissing: string := "Please enter a username"
  const PasswordMissing: string := "Please enter a password"
  const UnderAge: string := "You must be 18 or older to create an account"
  const UsernameTakenMessage: string := "Username already exists. Please choose another."

  /**
   * `isUserOver18`: `years` is the whole-year component of the calendar
   * difference from the birth date to now, absent when the calendar cannot
   * compute it; an absent value counts as 0.
   */
  function IsUserOver18(years: Option<int>): (r: bool)
    ensures r <==> years.Some? && years.value >= 18
  {
    years.GetOr(0) >= 18
  }

  /** The form's `@State` fields and the `showAuth` binding. */
  class SignUpForm {
    var username: string
    var password: string
    var birthDate: Time
    var showAlert: bool
    var alertMessage: string
    var showAuth: bool

    constructor (defaultBirthDate: Time, showAuth: bool)
      ensures username == "" && password == "" && birthDate == defaultBirthDate
      ensures !showAlert && alertMessage == "" && this.showAuth == showAuth
    {
      username := "";
      password := "";
      birthDate := defaultBirthDate;
      showAlert := false;
      alertMessage := "";
      this.showAuth := showAuth;
    }

    /**
     * `handleSignUp()`: empty username, empty password and age are checked
     * in that order, each with its own message; `signUp` runs only after
     * all three pass. `years` is the age in whole years at the time of the tap.
     */
    method HandleSignUp(um: UserManager, years: Option<int>) returns (signedUp: bool)
      requires um.Valid()
      modifies this`showAlert, this`alertMessage, this`showAuth, um, um.store, um.accountManager, um.accountManager.ids
      ensures um.Valid()
      ensures var refused := if username == "" then Some(UsernameMissing)
                             else if password == "" then Some(PasswordMissing)
                             else if !IsUserOver18(years) then Some(UnderAge)
                             else None;
              refused.Some? ==>
                && alertMessage == refused.value && showAlert && showAuth == old(showAuth) && !signedUp
                && um.currentUser == old(um.currentUser) && um.store.entries == old(um.store.entries)
                && um.accountManager.accounts == old(um.accountManager.accounts)
                && um.accountManager.ids.upcoming == old(um.accountManager.ids.upcoming)
                && um.accountManager.ids.issued == old(um.accountManager.ids.issued)
      ensures username != "" && password != "" && IsUserOver18(years) ==>
                && (signedUp <==> !UsernameTaken(old(um.accountManager.accounts), username))
                && (signedUp ==> !showAuth && showAlert == old(showAlert) && alertMessage == old(alertMessage)
                                 && um.currentUser == Some(NewUser(username, birthDate))
                                 && um.accountManager.accounts
                                    == old(um.accountManager.accounts)
                                       + [UserAccount(old(um.accountManager.ids.upcoming), username, password, birthDate)]
                                 && (forall i :: 0 <= i < |old(um.accountManager.accounts)| ==>
                                       old(um.accountManager.accounts)[i].id != old(um.accountManager.ids.upcoming))
                                 && um.accountManager.ids.issued
                                    == old(um.accountManager.ids.issued) + {old(um.accountManager.ids.upcoming)}
                                 && um.store.entries
                                    == SignedInEntries(SavedAccounts(old(um.store.entries), um.accountManager.accounts),
                                                       username, NewUser(username, birthDate)))
                && (!signedUp ==> alertMessage == UsernameTakenMessage && showAlert && showAuth == old(showAuth)
                                  && um.currentUser == old(um.currentUser)
                                  && um.store.entries == old(um.store.entries)
                                  && um.accountManager.accounts == old(um.accountManager.accounts)
                                  && um.accountManager.ids.upcoming == old(um.accountManager.ids.upcoming)
                                  && um.accountManager.ids.issued == old(um.accountManager.ids.issued))
    {
      signedUp := false;
      if username == "" {
        alertMessage := UsernameMissing;
        showAlert := true;
        return;
      }
      if password == "" {
        alertMessage := PasswordMissing;
        showAlert := true;
        return;
      }
      if !IsUserOver18(years) {
        alertMessage := UnderAge;
        showAlert := true;
        return;
      }
      signedUp := um.SignUp(username, password, birthDate);
      if signedUp {
        showAuth := false;
      } else {
        alertMessage := UsernameTakenMessage;
        showAlert := true;
      }
    }
  }
}
