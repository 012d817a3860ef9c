# hocal state layer in Dafny

This project models the state layer of the hocal SwiftUI app, together with the few pure helpers that live in its view files.

The state layer has four parts:

- **Account registry** (`UserAccountManager`). It rejects a username that clashes with an existing one up to case. It verifies a login by matching the username up to case and the password exactly. It saves the whole account array under `savedAccounts`.
- **Session** (`UserManager`). It holds the current user and the `isAuthenticated` flag. It mirrors the session under `currentUsername` (the name as typed) and `currentUser` (the encoded user), and it restores the session at launch only when both keys are present and decodable.
- **Community registry** (`CommunityManager`). It supports append, filter by creator, ownership-gated delete and update, and a snapshot save and load.
- **Small state holders**: the chat (`ChatViewModel`) and an unsaved community list (`CommunitiesViewModel`).

The records `Community`, `UserAccount`, `User` and `Message` are datatypes, and `USState` is an enum over 50 states. The view helpers covered are:

- the community search and the owner test;
- the "newest six" list;
- the login and sign-up validation sequences;
- the create and edit glue;
- the integer part of `Color(hex:)`.

Platform services become explicit pieces of the model (module `Platform`):

- `UserDefaults.standard` is a `Defaults` object holding a map from key to value. Every manager receives the same object.
- `JSONEncoder`/`JSONDecoder` on `Codable` types become encoders and decoders to a keyed document tree (`Doc`), with round-trip lemmas.
- `UUID()` is an `IdSource`. It never hands out an identifier in its `issued` set. That set holds every identifier it has handed out, and every identifier a manager has read back from the store and registered with `Reserve`. Each registry is given an `IdSource` when it is built. Its `Valid()` invariant says every identifier it lists is in `issued`. So a new account or community never takes the identifier of one already listed, and that includes the identifiers loaded at launch.
- `Date()` is a `now` parameter.
- `UIDevice.current.name` is a device-name parameter.
- The calendar's whole-year age is an `Option<int>` parameter.
- A `UIImage` is the JPEG bytes it would be stored as.

Modules follow the source files:

| Swift file | Dafny module |
|---|---|
| `Models/Community.swift` | `CommunityRecord` |
| `Models/UserAccount.swift` | `UserAccountRecord` |
| `Models/User.swift` | `UserRecord` |
| `Models/Message.swift` | `MessageRecord` |
| `Models/USState.swift` | `USStates` |
| `ViewModels/UserAccountManager.swift` | `AccountRegistry` |
| `ViewModels/UserManager.swift` | `SessionManager` |
| `ViewModels/CommunityManager.swift` | `CommunityRegistry` |
| `ViewModels/ChatViewModel.swift` | `ChatRoom` |
| `ViewModels/CommunitiesViewModel.swift` | `CommunityList` |
| `Views/CommunitiesPage.swift` | `CommunitySearch` |
| `Views/HomePage.swift` | `HomeFeed` |
| `Views/LoginView.swift` | `LoginScreen` |
| `Views/SignUpView.swift` | `SignUpScreen` |
| `Views/EditCommunityView.swift` | `EditCommunityScreen` |
| `Views/AddCommunityView.swift` | `AddCommunityScreen` |
| `AppSettings.swift` | `HexColors` |

`Wrappers`, `Strings` and `Sequences` hold the shared Swift library behaviour: `Optional`; `lowercased`, `trimmingCharacters`, `contains` and `<` on strings; and `filter`, `firstIndex(where:)` and `first(where:)`.

Two behaviours of the code are easy to misread:

- **An edit gives the community a new identity.** `updateCommunity` rebuilds the community through its initialiser, so the edited community gets a new `id` and a new `createdAt`. `UpdateOutcome` states where the new record goes. `UpdateCommunity` also states that its new `id` differs from the edited community's `id` and from that of every other listed community.
- **The owner can be refused.** The ownership guard compares the stored `currentUsername` with the creator, case-sensitively. Sign-in stores the name as typed, and the session user keeps the account's spelling. So an owner who types "bob" for the account "Bob" is shown the edit and delete controls, but the registry silently refuses both. `CardOffersWhatRegistryRefuses` proves this.

## Model

| member | source | states |
|---|---|---|
| Strings.Lowercased | ViewModels/UserAccountManager.swift:14 | on the ASCII range: no upper-case letter is left, each upper-case letter becomes its lower-case partner, and every other character stays, in place |
| Strings.LowercasedIdempotent | Views/CommunitiesPage.swift:20-21 | lowercasing an already lowercased string changes nothing |
| Strings.Contains | Views/CommunitiesPage.swift:20-21 | `contains` holds exactly when the needle occurs at some offset of the text |
| Strings.IsWhitespace | ViewModels/ChatViewModel.swift:9 | `.whitespaces` holds space and tab, and never newline, carriage return or a letter or digit |
| Strings.IsAlphanumeric | AppSettings.swift:82 | on the ASCII range, `alphanumerics` is the digits and the letters of either case; '#' is not in it |
| Strings.Trimmed | ViewModels/ChatViewModel.swift:9 | the result is a middle part of the text, and only set characters are cut before and after it. It is empty exactly when every character is in the set; otherwise it starts and ends outside the set |
| Sequences.Filter | ViewModels/CommunityManager.swift:19 | `filter` keeps exactly the elements satisfying the test, each as often as before, in their original order |
| Sequences.FirstIndexWhere | ViewModels/CommunityManager.swift:55 | `firstIndex(where:)` is nil exactly when no element matches; otherwise it is the lowest matching index |
| Sequences.FirstWhere | ViewModels/UserAccountManager.swift:26-29 | `first(where:)` is nil exactly when no element matches; otherwise it is an element matching at an index with no earlier match |
| Platform.StringAt | ViewModels/CommunityManager.swift:37 | `string(forKey:)` gives a value exactly when a plain string is stored under the key, and then gives that string |
| Platform.DataAt | ViewModels/UserManager.swift:11 | `data(forKey:)` gives a value exactly when a data blob is stored under the key, and then gives that blob |
| Platform.ReadAfterSet | ViewModels/UserManager.swift:10-27 | after a write, the key reads back what was written, through the reader of its kind only, and every other key reads as before |
| Platform.Defaults.Set | ViewModels/UserAccountManager.swift:34 | storing a value overwrites that key and leaves every other key alone |
| Platform.Defaults.Remove | ViewModels/UserManager.swift:54-55 | removing a key deletes only that key |
| Platform.IdSource.Next | Models/Community.swift:12 | each `UUID()` differs from every identifier issued before or reserved, and joins them |
| Platform.ItemsRoundTrip | ViewModels/UserAccountManager.swift:32-43 | if each element decodes back from its encoding, so does the whole array, in order |
| CommunityRecord.NewCommunity | Models/Community.swift:11-18 | a new community has a fresh id, the name, state, creator and image as given, and the current time |
| CommunityRecord.Image | Models/Community.swift:20-25 | the computed image is nil whenever the stored image data is nil |
| CommunityRecord.EncodeCommunity | Models/Community.swift:3-9 | the encoding carries all six stored properties, and leaves out `imageData` only when it is nil |
| CommunityRecord.DecodeCommunity | Models/Community.swift:3-9 | every key but `imageData` is required, and every key the decoded community encodes to holds in the document what it encodes to |
| CommunityRecord.CommunityRoundTrip | Models/Community.swift:3-9 | decoding an encoded community gives back all six fields |
| CommunityRecord.CommunitiesRoundTrip | ViewModels/CommunityManager.swift:22-34 | decoding an encoded community array gives back the same array |
| UserAccountRecord.NewUserAccount | Models/UserAccount.swift:9-14 | a new account has a fresh id, and the username, password and birth date exactly as given |
| UserAccountRecord.EncodeAccount | Models/UserAccount.swift:3-7 | the encoding carries exactly the four stored properties |
| UserAccountRecord.DecodeAccount | Models/UserAccount.swift:3-7 | all four keys are required, and the decoded account is exactly what they hold |
| UserAccountRecord.AccountRoundTrip | Models/UserAccount.swift:3-7 | decoding an encoded account gives it back |
| UserAccountRecord.AccountsRoundTrip | ViewModels/UserAccountManager.swift:32-43 | decoding an encoded account array gives back the same array |
| UserRecord.NewUser | Models/User.swift:3-8 | `User(username:birthDate:)` takes the two values, no image and zero counts, and survives a coding round trip whole |
| UserRecord.EncodeUser | Models/User.swift:10-13 | the encoding holds exactly `username`, `birthDate`, `communities` and `messages` |
| UserRecord.EncodingIgnoresProfileImage | Models/User.swift:6-13 | the profile image has no effect on the encoding |
| UserRecord.DecodeUser | Models/User.swift:10-13 | the four coding keys are required, the decoded user is exactly what they hold, and its image is nil |
| UserRecord.UserRoundTrip | Models/User.swift:4-13 | decoding an encoded user gives back the four coded fields, with no profile image |
| MessageRecord.NewMessage | Models/Message.swift:3-12 | a new message has its own id, the content and sender as given, and the current time |
| USStates.RawValue | Models/USState.swift:4-53 | every raw value is a full state name, never the two-letter code |
| USStates.AllCases | Models/USState.swift:3 | `allCases` has 50 entries, and each case sits at its declaration position |
| USStates.AllCasesComplete | Models/USState.swift:3-53 | `allCases` has exactly 50 entries and holds every case, at its declaration position |
| USStates.NamesAscending | Models/USState.swift:4-53 | the raw-value table is strictly ascending in string order |
| USStates.AllCasesAscending | Models/USState.swift:4-53 | the raw values along `allCases` are strictly ascending |
| USStates.RawValueInjective | Models/USState.swift:4-53 | two cases with the same raw value are the same case |
| USStates.FromRawValue | Models/USState.swift:3 | the lookup by raw value finds a case with that raw value, and finds none exactly when no case has it |
| USStates.RawValueRoundTrip | Models/USState.swift:3 | looking up a case's own raw value gives back that case |
| USStates.KnownRawValues | Models/USState.swift:8-46 | `CA` is "California" and `TX` is "Texas" |
| AccountRegistry.UsernameTaken | ViewModels/UserAccountManager.swift:13-15 | a name is taken exactly when its lowercased form is among the accounts' lowercased names |
| AccountRegistry.AppendKeepsUnique | ViewModels/UserAccountManager.swift:13-20 | appending an account whose name is free up to case keeps all usernames distinct up to case |
| AccountRegistry.LoadAfterSave | ViewModels/UserAccountManager.swift:32-43 | loading after a save gives back the saved accounts, in order |
| AccountRegistry.LoadWithoutData | ViewModels/UserAccountManager.swift:38-43 | with missing or undecodable data, loading keeps the accounts in memory |
| AccountRegistry.LoadIgnoresOtherKeys | ViewModels/UserAccountManager.swift:38-43 | writing any other key does not change what loading gives |
| AccountRegistry.UserAccountManager.constructor | ViewModels/UserAccountManager.swift:4-9 | a new registry starts empty and takes the saved accounts if they decode; their identifiers are reserved |
| AccountRegistry.UserAccountManager.CreateAccount | ViewModels/UserAccountManager.swift:11-23 | fails with nothing changed exactly when the name clashes up to case; otherwise it appends one new account at the end, with an identifier no listed account has, saves, and keeps the names distinct |
| AccountRegistry.UserAccountManager.VerifyAccount | ViewModels/UserAccountManager.swift:25-30 | returns the first account whose username matches up to case and whose password matches exactly, or nil if none does |
| AccountRegistry.UserAccountManager.SaveAccounts | ViewModels/UserAccountManager.swift:32-36 | the store holds the encoded accounts under `savedAccounts` |
| AccountRegistry.UserAccountManager.LoadAccounts | ViewModels/UserAccountManager.swift:38-43 | the accounts become the stored array when it decodes, and are unchanged otherwise; every listed identifier stays reserved |
| SessionManager.RestoredUser | ViewModels/UserManager.swift:8-16 | a session is restored exactly when the name string and decodable user data are both stored, and it is the decoded user |
| SessionManager.SignedInEntries | ViewModels/UserManager.swift:25-28 | the store then holds the typed name and the encoded user under the two session keys, and every other key as before |
| SessionManager.SignedOutEntries | ViewModels/UserManager.swift:54-55 | the store then holds neither session key, and every other key as before |
| SessionManager.RestoreAfterSignIn | ViewModels/UserManager.swift:18-32 | after sign-in the store restores the same user, without a profile image, and holds the name as typed |
| SessionManager.RestoreAfterSignOut | ViewModels/UserManager.swift:50-56 | after sign-out nothing is restored, whatever the store held |
| SessionManager.SessionKeysLeaveAccounts | ViewModels/UserManager.swift:50-56 | neither sign-in nor sign-out changes the saved accounts |
| SessionManager.TypedSpellingMayDiffer | ViewModels/UserManager.swift:19-25 | the account "Bob" is signed into by typing "bob", and the store then holds "bob" |
| SessionManager.UserManager.constructor | ViewModels/UserManager.swift:6-16 | the account registry loads, and the session is the restored user with `isAuthenticated` equal to its presence |
| SessionManager.UserManager.SignIn | ViewModels/UserManager.swift:18-32 | succeeds exactly when an account matches. On success the session holds the account's own name and birth date, and the store holds the typed name and the user. On failure nothing changes |
| SessionManager.UserManager.SignUp | ViewModels/UserManager.swift:34-48 | succeeds exactly when the name is free up to case. On success the account is appended, with an identifier no listed account has and which joins the issued set, the accounts are saved, and the session holds exactly the given name and date. On failure nothing changes, the identifier source included |
| SessionManager.UserManager.SignOut | ViewModels/UserManager.swift:50-56 | clears the session and both session keys, and nothing else |
| CommunityRegistry.Authorised | ViewModels/CommunityManager.swift:37-38 | the store holds a `currentUsername` string exactly equal to the creator's name |
| CommunityRegistry.CreatedBy | ViewModels/CommunityManager.swift:18-20 | exactly the communities whose creator equals the name exactly, in list order |
| CommunityRegistry.RemoveById | ViewModels/CommunityManager.swift:43 | removes every community with that id and keeps the others in order; an absent id changes nothing |
| CommunityRegistry.IndexOfId | ViewModels/CommunityManager.swift:55 | the first index holding that id, or nil exactly when no entry has it |
| CommunityRegistry.DeleteOutcome | ViewModels/CommunityManager.swift:36-47 | an authorised delete drops exactly the entries with the id, in order; an unauthorised one changes nothing |
| CommunityRegistry.UpdateOutcome | ViewModels/CommunityManager.swift:49-65 | the length is kept. When the update applies, only the first entry with the id changes: to the new name, state and image, the old creator, and a new id and time. Otherwise nothing changes |
| CommunityRegistry.RemoveFreshId | ViewModels/CommunityManager.swift:11-16 | deleting by an identifier no other entry has takes off only the entry appended under it |
| CommunityRegistry.LoadWithoutData | ViewModels/CommunityManager.swift:29-34 | with missing or undecodable data, loading keeps the communities in memory |
| CommunityRegistry.LoadAfterSave | ViewModels/CommunityManager.swift:22-34 | loading after a save gives back the saved communities |
| CommunityRegistry.SessionKeysLeaveCommunities | ViewModels/CommunityManager.swift:29-34 | signing in or out does not change what loading the communities gives |
| CommunityRegistry.TypedSpellingBlocksOwner | ViewModels/CommunityManager.swift:36-40 | a session entered by typing "bob" is refused ownership of what "Bob" created |
| CommunityRegistry.CommunityManager.constructor | ViewModels/CommunityManager.swift:4-9 | starts empty and takes the saved communities if they decode; their identifiers are reserved |
| CommunityRegistry.CommunityManager.AddCommunity | ViewModels/CommunityManager.swift:11-16 | always succeeds: it appends one new community at the end and saves. The new identifier is no listed community's, so deleting it takes off only the new community |
| CommunityRegistry.CommunityManager.GetCommunities | ViewModels/CommunityManager.swift:18-20 | exactly the user's communities, each as often as in the list, as an ordered sublist |
| CommunityRegistry.CommunityManager.DeleteCommunity | ViewModels/CommunityManager.swift:36-47 | the list becomes that of `DeletedList`, and the store is saved only when authorised |
| CommunityRegistry.CommunityManager.UpdateCommunity | ViewModels/CommunityManager.swift:49-65 | the list becomes that of `UpdatedList`. When the update applies, the new identifier differs from the edited community's and from every listed one. Otherwise the store and the identifier source are untouched |
| CommunityRegistry.CommunityManager.SaveCommunities | ViewModels/CommunityManager.swift:22-27 | the store holds the encoded communities under `savedCommunities` |
| CommunityRegistry.CommunityManager.LoadCommunities | ViewModels/CommunityManager.swift:29-34 | the list becomes the stored array when it decodes, and is unchanged otherwise; every listed identifier stays reserved |
| ChatRoom.IsBlank | ViewModels/ChatViewModel.swift:9 | a draft is blank exactly when every character is in the whitespace set |
| ChatRoom.NewlineIsNotBlank | ViewModels/ChatViewModel.swift:9 | spaces and tabs are blank; a lone newline is not |
| ChatRoom.ChatViewModel.constructor | ViewModels/ChatViewModel.swift:4-6 | no messages and an empty draft, sent under the device name |
| ChatRoom.ChatViewModel.SendMessage | ViewModels/ChatViewModel.swift:8-13 | a blank draft changes nothing. Otherwise the untrimmed draft is appended under the device name, and the draft is cleared |
| CommunityList.CommunitiesViewModel.constructor | ViewModels/CommunitiesViewModel.swift:4 | the list starts empty |
| CommunityList.CommunitiesViewModel.AddCommunity | ViewModels/CommunitiesViewModel.swift:6-14 | appends one community created by the device name, and touches no store |
| CommunitySearch.FilteredCommunities | Views/CommunitiesPage.swift:15-24 | empty text gives the list unchanged. Otherwise it gives exactly the communities whose lowercased name or state contains the lowercased text, as an ordered sublist |
| CommunitySearch.EmptySearchMatchesAll | Views/CommunitiesPage.swift:16-22 | the empty text would match every community anyway |
| CommunitySearch.SearchIgnoresQueryCase | Views/CommunitiesPage.swift:19-22 | the query's case does not affect the search |
| CommunitySearch.CanModify | Views/CommunitiesPage.swift:140-142 | true exactly when there is a current user whose name equals the creator exactly |
| CommunitySearch.CardOffersWhatRegistryRefuses | Views/CommunitiesPage.swift:140-142 | after "Bob" signs in as "bob", the card offers changes that the registry refuses |
| CommunitySearch.SearchBar.constructor | Views/CommunitiesPage.swift:6-8 | empty text, and not searching |
| CommunitySearch.SearchBar.Edit | Views/CommunitiesPage.swift:35-37 | the flag becomes "the text is not empty" |
| CommunitySearch.SearchBar.Clear | Views/CommunitiesPage.swift:39-42 | empties the text and clears the flag |
| HomeFeed.SortNewestFirst | Views/HomePage.swift:10 | sorting orders by creation time, newest first, and is a permutation |
| HomeFeed.PopularCommunities | Views/HomePage.swift:9-11 | at most six, and all six when there are that many; newest first; drawn from the list |
| HomeFeed.PopularAreNewest | Views/HomePage.swift:10-11 | no community left out is newer than one shown |
| LoginScreen.LoginForm.constructor | Views/LoginView.swift:6-10 | the form opens with an empty username and password and no alert, under the given `showAuth` |
| LoginScreen.LoginForm.HandleLogin | Views/LoginView.swift:90-111 | an empty username, then an empty password, each set their own alert and skip `signIn`. Otherwise it succeeds exactly when an account matches. Success closes the auth flow, puts the matched account's name and date in the session and writes the typed name and the user to the store. Failure shows "Invalid username or password" and changes nothing. The accounts never change |
| SignUpScreen.IsUserOver18 | Views/SignUpView.swift:27-29 | true exactly when the whole-year age is known and at least 18 |
| SignUpScreen.SignUpForm.constructor | Views/SignUpView.swift:6-16 | the form opens with an empty username and password, the default birth date and no alert, under the given `showAuth` |
| SignUpScreen.SignUpForm.HandleSignUp | Views/SignUpView.swift:124-153 | checks the username, the password, then the age, each with its own alert and no `signUp`. Then it succeeds exactly when the name is free up to case. Success closes the auth flow, appends the account under an identifier no listed account has, saves the accounts, signs in under the given name and date, and adds that identifier to the issued set. Failure reports the name as taken. A refusal leaves the session, the store, the accounts and the identifier source alone |
| EditCommunityScreen.InitialState | Views/EditCommunityView.swift:22 | the state whose raw value is the community's state, and `CA` when there is none |
| EditCommunityScreen.InitialStateOfRawValue | Views/EditCommunityView.swift:22 | a community saved with a state's full name reopens with that state |
| EditCommunityScreen.Actions | Views/EditCommunityView.swift:33 | the owner gets Cancel and Save; anyone else gets only Go Back |
| EditCommunityScreen.EditCommunityForm.constructor | Views/EditCommunityView.swift:17-24 | the name and image are copied, and the state is looked up from the raw value |
| EditCommunityScreen.EditCommunityForm.CanEdit | Views/EditCommunityView.swift:26-28 | true exactly when the current user's name equals the creator exactly |
| EditCommunityScreen.EditCommunityForm.SaveEdits | Views/EditCommunityView.swift:104-111 | updates with the edited name, the state's full name and the image, then closes. When the update applies, the new identifier differs from the edited community's and from every listed one; when it does not, the store and the identifier source are untouched |
| EditCommunityScreen.EditCommunityForm.Close | Views/EditCommunityView.swift:97-99 | Cancel and Go Back close the sheet |
| AddCommunityScreen.AddCommunityForm.constructor | Views/AddCommunityView.swift:7-9 | opens with an empty name, California and no image |
| AddCommunityScreen.AddCommunityForm.HandleCreate | Views/AddCommunityView.swift:124-135 | with no user nothing happens. Otherwise the community is added under the user's name and a new identifier, whatever the name field holds, and the sheet closes |
| HexColors.LeadingHexDigits | AppSettings.swift:84 | the scanner reads the longest run of hex digits at the start |
| HexColors.DigitsValueBound | AppSettings.swift:84 | n hex digits make a number below 16^n |
| HexColors.ScannedHex | AppSettings.swift:84 | the scanned number is below 16 to the power of the text's length |
| HexColors.TrimmedHex | AppSettings.swift:82 | the dispatched text is a middle part of the input, with only non-alphanumerics cut from either end, and it starts and ends with a letter or digit |
| HexColors.HashPrefixStripped | AppSettings.swift:82 | a '#' followed by letters and digits leaves exactly those letters and digits |
| HexColors.Channels | AppSettings.swift:86-95 | on trimmed text, the length decides the channels, and every channel is in 0..255 |
| HexColors.HexColor | AppSettings.swift:81-95 | every channel is in 0..255 for every input |
| HexColors.ThreeDigitChannels | AppSettings.swift:87-88 | three characters: alpha 255, and each channel is one digit times 17, in order |
| HexColors.SixDigitChannels | AppSettings.swift:89-90 | six characters: alpha 255, and red, green and blue are the number's three bytes |
| HexColors.EightDigitChannels | AppSettings.swift:91-92 | eight characters: alpha, red, green and blue are the number's four bytes, alpha first |
| HexColors.OtherLengthIsBlack | AppSettings.swift:93-94 | any other length is opaque black |
| HexColors.DarkGreen | AppSettings.swift:45 | "#013220" loses its '#' and gives alpha 255, red 0x01, green 0x32 and blue 0x20 |

## Left out

- SwiftUI rendering, navigation, alerts as UI, sheets, animation, `withAnimation` and `objectWillChange`: presentation and change notification only.
- The JSON text format: `Codable` values are modelled as keyed document trees. Encoding never fails in the model, so the dropped-save path after a failed encode does not arise. `synchronize()` has no effect on the model.
- Strings.Lowercased: `lowercased()` is modelled on ASCII letters only, one character to one. Swift's full Unicode mapping is not modelled, and it can change the length ("İ" lowercases to two scalars), so `|r| == |s|` holds in the model but not in Swift.
- AccountRegistry.UsernameTaken, CommunityRegistry.Authorised, HexColors.HexColor: strings are sequences of Unicode scalars, compared and counted scalar by scalar. Swift's `String` `==` uses canonical equivalence and `count` counts grapheme clusters. So a precomposed "José" and a decomposed one are one name to the duplicate-username check, the credential match and the ownership guard in Swift, but two in the model. `AppendKeepsUnique` is about the model's equality. And `hex.count` may differ from the scalar length. Keyboard input is normally precomposed, which limits the gap.
- Strings.IsAlphanumeric: `CharacterSet.alphanumerics` is modelled as ASCII letters and digits only.
- HexColors.ScannedHex: `scanHexInt64` is modelled as reading the longest leading run of hex digits. The optional "0x" prefix it also accepts is not modelled. Overflow beyond 64 bits is not modelled either; the result is only used for 3, 6 or 8 characters, where it cannot overflow.
- The `Double` colour construction and the layout constants of `AppSettings.swift` (floating point).
- Images: a `UIImage` is identified with its JPEG bytes. `jpegData(compressionQuality:)` re-encoding and failure, and `UIImage(data:)` decoding, are foreign library calls.
- `Date()`, `UIDevice.current.name`, the calendar's whole-year age and the sign-up form's default birth date (1 January, eighteen years back) are parameters, not computed.
- Platform.Time: a `Date` is an integer instant. Instants are ordered as integers, and fractional seconds and the precision with which `JSONEncoder` writes them are not modelled.
- Platform.IdSource.Next: `UUID()` is random, and its freedom from collisions is a matter of probability. The model replaces that with a counter. The counter avoids every identifier it issued and every identifier a registry reserved when it loaded the store. It does not know identifiers held anywhere else, such as in records decoded by code outside this model.
- HomeFeed.SortNewestFirst: Swift's `sorted` leaves the order of communities with equal `createdAt` unspecified. The model fixes one order, and its contract states only the newest-first order and the permutation.
- The spreadsheet, onboarding, terms, about, search and profile screens, and `MainView`/`ContentView` routing: they hold no rules of the state layer.
- Concurrency: everything runs on the main thread in the source, so each operation is modelled as one sequential step.
