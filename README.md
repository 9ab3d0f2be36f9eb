# Cooperative dashboard: form validators and widget state

This project models, in Dafny, the decision logic of a cooperative society's
back-office dashboard: a single-page React application. It covers the following pieces.

- **Auth pages.** Sign-up, login, forgot password, code verification and
  reset password. Each page has its validation, its change handlers and its
  submit-button conditions. The forgot-password, verification and reset pages
  hand an email and a code to each other through navigation state, and the
  model covers that hand-off.
- **The new/edit member dialog.** Per-field checks, a form pass that merges
  new errors into the old ones, the record built from a submitted form, and
  the insert-or-update of the stored member list.
- **The filter, roles and sort popovers.** Case-insensitive search over
  fixed option lists, the checkbox map, the chosen role, and the sort
  menu's five state variables.
- **The member profile page.** The values it derives from the record it is
  opened with.

The modules are laid out as follows.

- **One module per source component.** These are Signup, Login,
  ForgotPassword, ResetPassword, VerifyOtp, MemberForm (for
  `MemberFormDialog.tsx`), FilterDropdown, RolesDropdown, SortByDropdown and
  MemberProfile.
- **Shared modules:**
  - `JsValues`: optional values, and the truthiness that `||` and `if (x)`
    test;
  - `JsText`: the `\s` class, `trim`, `toLowerCase`, `includes`,
    `charAt(0).toUpperCase() + slice(1)` and decimal rendering;
  - `JsArray`: `Array.prototype.filter`;
  - `EmailPatterns`: the two email regular expressions;
  - `AuthRules`: the field rules the auth pages repeat word for word.

The modelling choices are these.

- **Components with state become classes.** Each `useState` slot is a field,
  and each handler is a method that states the component's whole new state.
- **Pure expressions become functions.** This covers validators, `disabled`
  expressions and derived values.
- **Each regular expression has two descriptions.** A ghost predicate gives
  the language it matches, by how a match splits the string. A function
  scans for a match. A lemma proves that the two agree.
- **Error objects mirror the JavaScript types.**
  - On the auth pages, the object has a fixed set of keys, so it is a
    record with one optional message per key. "Valid" is `IsEmpty()`.
  - In the member dialog, the keys are field names, so the error object is a
    `map<string, string>`. The empty string is the dialog's own way of
    saying "no error".
- **Async handlers are split in two.** A submit handler becomes the
  synchronous decision, which validates and sets `isLoading` when it
  proceeds. The `finally` block becomes a separate method, `FinishSubmit`.

## Model

| member | source | states |
|---|---|---|
| AuthRules.EmailErrorSpec | src/pages/auth/Signup.tsx:41-45 | an email is rejected exactly when it does not match the anchored pattern; the message is "Email is required" when it is empty, "Please enter a valid email" otherwise |
| AuthRules.PasswordError | src/pages/auth/Login.tsx:35-39 | a password is rejected exactly when it is shorter than six characters; the page's "required" message when empty, "Password must be at least 6 characters" otherwise |
| AuthRules.MismatchError | src/pages/auth/ResetPassword.tsx:39-41 | the confirmation is rejected exactly when it differs from the password, with "Passwords do not match" |
| EmailPatterns.ValidateEmailSpec | src/pages/auth/Signup.tsx:24-27 | the scanner accepts exactly the strings that split as `[^\s@]+` `@` `[^\s@]+` `.` `[^\s@]+` |
| EmailPatterns.ValidateEmailShape | src/pages/auth/Login.tsx:20-23 | accepted exactly when there is one `@`, not first, no whitespace anywhere, and a `.` after the `@` that is neither the first nor the last character of that part |
| EmailPatterns.MemberEmailValidSpec | src/components/MemberFormDialog.tsx:89 | the left-to-right search succeeds exactly when some substring matches `\S+@\S+\.\S+` |
| EmailPatterns.AnchoredImpliesUnanchored | src/pages/auth/ForgotPassword.tsx:15-18 | every address the auth pages accept is also accepted by the member dialog's pattern |
| EmailPatterns.MemberFormAcceptsMore | src/components/MemberFormDialog.tsx:89 | the converse fails: "a b@c.d" passes the member dialog's pattern but not the auth pages' |
| Signup.ValidateSignupSpec | src/pages/auth/Signup.tsx:30-59 | per key: a name is rejected exactly when it is all whitespace; email, password and confirmation as the shared rules say; terms exactly when not accepted; each with its message |
| Signup.SignupValidIff | src/pages/auth/Signup.tsx:61-62 | the error object is empty exactly when the form is acceptable (non-blank names, matching email, password of six or more equal to its confirmation, terms accepted) |
| Signup.SubmitDisabled | src/pages/auth/Signup.tsx:255 | an acceptable form with no request running enables the button; a non-empty password under six characters disables it |
| Signup.BlankNameEnablesButton | src/pages/auth/Signup.tsx:255 | the button tests names untrimmed: a first name of one space enables it, yet the validator rejects that name |
| Signup.WithText | src/pages/auth/Signup.tsx:65-71 | a text change replaces the named field and keeps every other field |
| Signup.SignupPage.constructor | src/pages/auth/Signup.tsx:10-19 | empty form, terms unchecked, no errors, not loading |
| Signup.SignupPage.HandleChange | src/pages/auth/Signup.tsx:65-71 | the form becomes the old form with that one field replaced |
| Signup.SignupPage.OnTermsCheckedChange | src/pages/auth/Signup.tsx:219-229 | stores the flag; checking deletes only the terms error, unchecking keeps all errors |
| Signup.SignupPage.ValidateForm | src/pages/auth/Signup.tsx:30-63 | errors are replaced wholesale by the rule-by-rule object, and the result is true exactly when the form is acceptable |
| Signup.SignupPage.HandleSubmit | src/pages/auth/Signup.tsx:73-80 | proceeds, and starts loading, exactly when the form is acceptable; errors as the validation left them |
| Signup.SignupPage.FinishSubmit | src/pages/auth/Signup.tsx:108-110 | loading ends |
| Login.ValidateLoginSpec | src/pages/auth/Login.tsx:26-39 | email and password each rejected exactly as the shared rules say, with the page's messages; remember-me plays no part |
| Login.LoginValidIff | src/pages/auth/Login.tsx:41-42 | the error object is empty exactly when the email matches and the password has six or more characters |
| Login.SubmitDisabled | src/pages/auth/Login.tsx:190 | acceptable credentials with no request running enable the button; a password under six characters disables it |
| Login.EnabledButInvalid | src/pages/auth/Login.tsx:190 | the button does not test the email's shape: "ab" with a good password enables it and is rejected |
| Login.Apply | src/pages/auth/Login.tsx:45-51 | a change updates only the named field, from `value` for inputs and `checked` for the checkbox |
| Login.CheckboxKeepsValidation | src/pages/auth/Login.tsx:173-174 | toggling remember-me never changes the validation result |
| Login.RememberedUser | src/pages/auth/Login.tsx:76-83 | the user is remembered exactly when remember-me is on, under the entered email |
| Login.LoginPage.constructor | src/pages/auth/Login.tsx:9-15 | empty form, no errors, not loading |
| Login.LoginPage.HandleChange | src/pages/auth/Login.tsx:45-51 | the form becomes the old form with that one change applied |
| Login.LoginPage.ValidateForm | src/pages/auth/Login.tsx:26-43 | errors are replaced wholesale, and the result is true exactly when the credentials are acceptable |
| Login.LoginPage.HandleSubmit | src/pages/auth/Login.tsx:53-60 | proceeds, and starts loading, exactly when the credentials are acceptable |
| Login.LoginPage.FinishSubmit | src/pages/auth/Login.tsx:101-103 | loading ends |
| ResetPassword.Destructure | src/pages/auth/ResetPassword.tsx:13 | a missing state gives an undefined email and code; a present one is read as is |
| ResetPassword.MustRedirect | src/pages/auth/ResetPassword.tsx:25-28 | the page renders exactly when a state is present with a non-empty email and a non-empty code |
| ResetPassword.ValidateReset | src/pages/auth/ResetPassword.tsx:30-44 | the new password is rejected exactly when under six characters ("New password is required" when empty); the confirmation exactly when it differs; empty exactly when neither |
| ResetPassword.SubmitDisabled | src/pages/auth/ResetPassword.tsx:158 | disabled when loading or either field is empty; a form that passes validation leaves it enabled when not loading |
| ResetPassword.ShortPasswordEnablesButton | src/pages/auth/ResetPassword.tsx:158 | the button does not test length: "abc"/"abc" enables it and is rejected as too short |
| ResetPassword.WithValue | src/pages/auth/ResetPassword.tsx:47-53 | a change replaces the named field only |
| ResetPassword.InputType | src/pages/auth/ResetPassword.tsx:118 | the inputs show "text" exactly when the flag is on, and "password" exactly when it is off |
| ResetPassword.ResetPasswordPage.Rendered | src/pages/auth/ResetPassword.tsx:25-28 | the form is rendered exactly when the page was opened with a state holding a non-empty email and a non-empty code |
| ResetPassword.ResetPasswordPage.constructor | src/pages/auth/ResetPassword.tsx:13-22 | keeps the navigation state; empty form, no errors, not loading, password hidden |
| ResetPassword.ResetPasswordPage.HandleChange | src/pages/auth/ResetPassword.tsx:47-53 | the form becomes the old form with that field replaced |
| ResetPassword.ResetPasswordPage.ToggleShowPassword | src/pages/auth/ResetPassword.tsx:125 | the flag flips, and with it the type of both inputs |
| ResetPassword.ResetPasswordPage.ValidateForm | src/pages/auth/ResetPassword.tsx:30-45 | errors are replaced wholesale, and the result is true exactly when the password has six or more characters and equals its confirmation |
| ResetPassword.ResetPasswordPage.HandleSubmit | src/pages/auth/ResetPassword.tsx:55-62 | proceeds, and starts loading, exactly when the error object is empty |
| ResetPassword.ResetPasswordPage.FinishSubmit | src/pages/auth/ResetPassword.tsx:81-83 | loading ends |
| ForgotPassword.ValidateForgotSpec | src/pages/auth/ForgotPassword.tsx:24-30 | "Email is required" for the empty email, "Please enter a valid email" for a non-matching one, no error exactly when it matches |
| ForgotPassword.SubmitDisabled | src/pages/auth/ForgotPassword.tsx:103 | an empty email disables the button; a matching one with no request running enables it |
| ForgotPassword.ForgotPasswordPage.constructor | src/pages/auth/ForgotPassword.tsx:9-11 | empty email, no errors, not loading |
| ForgotPassword.ForgotPasswordPage.SetEmail | src/pages/auth/ForgotPassword.tsx:92 | the email becomes the input's value |
| ForgotPassword.ForgotPasswordPage.HandleSubmit | src/pages/auth/ForgotPassword.tsx:20-46 | errors are replaced; the email is handed on, and loading starts, exactly when it matches the anchored pattern |
| ForgotPassword.ForgotPasswordPage.FinishSubmit | src/pages/auth/ForgotPassword.tsx:55-57 | loading ends |
| VerifyOtp.JoinDigits | src/pages/auth/VerifyOtp.tsx:65 | joining digit-only boxes gives a digit-only code |
| VerifyOtp.AnyEmpty | src/pages/auth/VerifyOtp.tsx:163 | true exactly when some box is empty |
| VerifyOtp.JoinLengthOfSingles | src/pages/auth/VerifyOtp.tsx:65-66 | while every box holds at most one character, the code is never longer than the box count, and has full length exactly when no box is empty |
| VerifyOtp.NoEmptyBoxLength | src/pages/auth/VerifyOtp.tsx:65-66 | with no box empty, the code is at least six long, and exactly six exactly when every box holds one character |
| VerifyOtp.VerifyOtpPage.constructor | src/pages/auth/VerifyOtp.tsx:11-17 | six empty boxes, countdown at 30, not loading, no error; the email is the state's email or "" |
| VerifyOtp.VerifyOtpPage.HandleOtpChange | src/pages/auth/VerifyOtp.tsx:47-52 | a non-empty value with a non-digit leaves the boxes unchanged; a digit-only value replaces box `index` only; six digit-only boxes remain |
| VerifyOtp.VerifyOtpPage.VerifyDisabled | src/pages/auth/VerifyOtp.tsx:163 | disabled exactly when loading or some box is empty |
| VerifyOtp.VerifyOtpPage.HandleSubmit | src/pages/auth/VerifyOtp.tsx:61-84 | a code not six long sets "Please enter a valid 6-digit code" and stops; otherwise loading starts and the email and the code are handed on |
| VerifyOtp.VerifyOtpPage.FinishSubmit | src/pages/auth/VerifyOtp.tsx:93-95 | loading ends |
| VerifyOtp.VerifyOtpPage.Tick | src/pages/auth/VerifyOtp.tsx:20-25 | a positive countdown drops by one and stays within 0..30; the link stays disabled unless the countdown was at 1 |
| VerifyOtp.VerifyOtpPage.HandleResendOtp | src/pages/auth/VerifyOtp.tsx:27-33 | nothing happens while the countdown is positive; a resend happens exactly at zero, that is exactly when the link is enabled, and restarts it at 30 |
| VerifyOtp.VerifyOtpPage.ResendDisabled | src/pages/auth/VerifyOtp.tsx:151 | the resend link is enabled exactly when the countdown is at zero |
| VerifyOtp.SubmittedCodeIsDigits | src/pages/auth/VerifyOtp.tsx:79-84 | a code that is handed on consists of digits, and the reset page renders with it exactly when the email is non-empty |
| VerifyOtp.ForwardedEmailArrives | src/pages/auth/VerifyOtp.tsx:17 | an email the forgot-password page hands on (one matching its pattern) is non-empty and is read back unchanged |
| MemberForm.Get | src/components/MemberFormDialog.tsx:100 | a field's submitted text, "" when the field is missing |
| MemberForm.Required | src/components/MemberFormDialog.tsx:86-88 | the "required" message is never "" and never the email message |
| MemberForm.ValidateFieldSpec | src/components/MemberFormDialog.tsx:85-93 | "X is required" exactly when the value is empty; a non-empty email fails, with "Please enter a valid email address", exactly when it contains no match; anything else passes |
| MemberForm.RequiredMessage | src/components/MemberFormDialog.tsx:87 | the message upper-cases only the first character: "FirstName is required" |
| MemberForm.FieldErrorsSpec | src/components/MemberFormDialog.tsx:95-105 | the new error object has a key exactly for each visited field whose check failed, holding that check's message |
| MemberForm.FormValidIff | src/components/MemberFormDialog.tsx:112 | no new error exactly when first name, last name and role are non-empty and the email contains a match |
| MemberForm.MemberId | src/components/MemberFormDialog.tsx:254 | keeps the existing id when editing a member that has one, else "member-" followed by the clock reading in decimal |
| MemberForm.FreshIdsDiffer | src/components/MemberFormDialog.tsx:254 | new members created at different instants get different ids |
| MemberForm.ProcessFormData | src/components/MemberFormDialog.tsx:248-260 | the record holds the form's entries, the preview image when there is one, the chosen id and the timestamp, and no other keys |
| MemberForm.SaveMembers | src/components/MemberFormDialog.tsx:263-267 | creating appends the member after the unchanged list; editing keeps the length, overlays the member on each entry with its id, and leaves the others unchanged |
| MemberForm.EditKeepsIds | src/components/MemberFormDialog.tsx:266 | an edit never changes any entry's id |
| MemberForm.EditIdempotent | src/components/MemberFormDialog.tsx:266 | applying the same edit twice equals applying it once |
| MemberForm.CreatedMemberIsEditable | src/components/MemberFormDialog.tsx:265-267 | a created member is found and updated by an edit that carries its id |
| MemberForm.MemberFormDialog.constructor | src/components/MemberFormDialog.tsx:61-64 | the preview is the member's non-empty image or none; no errors |
| MemberForm.MemberFormDialog.ValidateForm | src/components/MemberFormDialog.tsx:95-113 | errors become the old errors overlaid with the new ones, with stale entries kept; the result is true exactly when the form is acceptable |
| MemberForm.MemberFormDialog.HandleChange | src/components/MemberFormDialog.tsx:130-137 | only the named field's entry changes, to its check's result ("" included) |
| MemberForm.MemberFormDialog.HandleSelectChange | src/components/MemberFormDialog.tsx:139-144 | as HandleChange, for a select |
| MemberForm.MemberFormDialog.OnCountryChange | src/components/MemberFormDialog.tsx:401-407 | the country entry ends as "", whatever its check said |
| MemberForm.MemberFormDialog.OnImageLoaded | src/components/MemberFormDialog.tsx:119-121 | the loaded data URL becomes the preview |
| MemberForm.MemberFormDialog.HandleFormSubmit | src/components/MemberFormDialog.tsx:213-224 | errors are merged; a record and a new stored list are produced exactly when the form is acceptable, and they are the processed record and the list update |
| FilterDropdown.DefaultsSpec | src/components/FilterDropdown.tsx:27-30 | with distinct ids, the reduced map has a key exactly for each option, holding its default |
| FilterDropdown.InitialFilters | src/components/FilterDropdown.tsx:13-31 | the initial map is active: true, suspended, inactive and new-added: false |
| FilterDropdown.FilteredOptions | src/components/FilterDropdown.tsx:38-40 | an option is listed exactly when its lower-cased label contains the lower-cased query, in list order |
| FilterDropdown.EmptyQueryListsAll | src/components/FilterDropdown.tsx:38-40 | the empty query lists every option |
| FilterDropdown.FilterDropdownState.constructor | src/components/FilterDropdown.tsx:26-32 | the default map and an empty search |
| FilterDropdown.FilterDropdownState.BuildDefaults | src/components/FilterDropdown.tsx:27-30 | the loop's map is the reduced default map |
| FilterDropdown.FilterDropdownState.IsChecked | src/components/FilterDropdown.tsx:64 | a box is checked exactly when its key is in the map with the value true; a missing key reads as unchecked |
| FilterDropdown.FilterDropdownState.Toggle | src/components/FilterDropdown.tsx:65-69 | sets that option's key only, and passes the new map on |
| FilterDropdown.FilterDropdownState.SyncValue | src/components/FilterDropdown.tsx:34-36 | a given value replaces the whole map; none leaves it |
| FilterDropdown.FilterDropdownState.SetSearchQuery | src/components/FilterDropdown.tsx:56 | the search text becomes the input's value |
| FilterDropdown.FilterDropdownState.Visible | src/components/FilterDropdown.tsx:60 | the listed options are those matching the current search |
| RolesDropdown.FilteredRoles | src/components/RolesDropdown.tsx:28-30 | a role is listed exactly when its lower-cased text contains the lower-cased query; the result is a subsequence of the roles |
| RolesDropdown.EmptyQueryListsAll | src/components/RolesDropdown.tsx:13-30 | the empty query lists all eight roles |
| RolesDropdown.TreasHidesPresident | src/components/RolesDropdown.tsx:13-30 | "President" is a role, and the query "treas" does not list it |
| RolesDropdown.RolesDropdownState.constructor | src/components/RolesDropdown.tsx:25-26 | no role chosen and an empty search |
| RolesDropdown.RolesDropdownState.SelectRole | src/components/RolesDropdown.tsx:48 | the chosen role becomes exactly the selection; the search is kept |
| RolesDropdown.RolesDropdownState.SetSearchQuery | src/components/RolesDropdown.tsx:45 | the search changes and the selection never does |
| RolesDropdown.RolesDropdownState.Visible | src/components/RolesDropdown.tsx:28-30 | the listed roles are those matching the current search |
| RolesDropdown.HiddenSelectionStays | src/components/RolesDropdown.tsx:45-48 | choosing "President" and then searching "treas" leaves "President" chosen but no longer listed |
| SortByDropdown.SpecialEntriesMatchHandlers | src/components/SortByDropdown.tsx:15-30 | the values the handlers test are the lists' special entries: "date" is the one sort option with a submenu chevron, "custom" the one range preset with no date text |
| SortByDropdown.SortByState.constructor | src/components/SortByDropdown.tsx:39-49 | the sort key is the given value or "date"; "today"; submenu and calendar hidden; both dates undefined |
| SortByDropdown.SortByState.SyncValue | src/components/SortByDropdown.tsx:51-53 | a truthy value becomes the sort key; otherwise the key is kept |
| SortByDropdown.SortByState.HandleSortChange | src/components/SortByDropdown.tsx:55-63 | the key is stored and passed on; the date submenu shows exactly for "date" |
| SortByDropdown.SortByState.HandleDateRangeSelect | src/components/SortByDropdown.tsx:65-73 | the range id is stored; the calendar shows exactly for "custom"; any other id reports a cleared range |
| SortByDropdown.SortByState.CalendarSelect | src/components/SortByDropdown.tsx:158-161 | the calendar's range is stored as given and passed on |
| SortByDropdown.SortByState.Remove | src/components/SortByDropdown.tsx:179-183 | the calendar closes, both dates become undefined, and a cleared range is reported |
| SortByDropdown.SortByState.Done | src/components/SortByDropdown.tsx:189 | the calendar closes and the dates stay |
| SortByDropdown.SortByState.ShowsSubmenu | src/components/SortByDropdown.tsx:86-106 | with a preset range chosen, the submenu shows exactly when its flag is on |
| MemberProfile.FirstCharOr | src/pages/MemberProfile.tsx:11 | the first character of a present, non-empty property, else the default |
| MemberProfile.Initials | src/pages/MemberProfile.tsx:11 | one or two characters: the first name's initial or "?", then the last name's initial exactly when there is a last name |
| MemberProfile.MembershipId | src/pages/MemberProfile.tsx:12 | the record's non-empty id, else "BJ345635789"; never empty |
| MemberProfile.Country | src/pages/MemberProfile.tsx:72 | the record's non-empty country, else "Nigeria" |
| MemberProfile.State | src/pages/MemberProfile.tsx:76 | the record's non-empty state, else "Lagos State" |
| MemberProfile.FullNameSpec | src/pages/MemberProfile.tsx:56 | the full name has no edge whitespace and is the joined names with only whitespace cut from the ends |
| MemberProfile.FullNameOfBothNames | src/pages/MemberProfile.tsx:56 | two tidy names give "first last" |
| MemberProfile.FullNameOfFirstNameOnly | src/pages/MemberProfile.tsx:56 | without a last name, the full name is the first name, with no trailing space |
| MemberProfile.FullNameOfNoNames | src/pages/MemberProfile.tsx:56 | without either name it is "" |
| MemberProfile.NoStateShowsDefaults | src/pages/MemberProfile.tsx:10-12 | opened without a record, the page shows "?", the default id, country and state, and an empty name |
| JsValues.OrElse | src/pages/MemberProfile.tsx:60 | `v \|\| d` on a string: the value when it is truthy, else the default (the email, username and phone fields) |
| JsText.TrimEmpty | src/pages/auth/Signup.tsx:33 | `trim()` gives "" exactly when the string is all whitespace |
| JsText.MatchesQuerySpec | src/components/RolesDropdown.tsx:29 | the case-insensitive search succeeds exactly when the lower-cased query occurs in the lower-cased text, always for the empty query |
| JsText.DecimalRoundTrip | src/components/MemberFormDialog.tsx:254 | the decimal rendering of the clock reading reads back as the same number |
| JsArray.Filter | src/components/FilterDropdown.tsx:38 | `filter` keeps exactly the elements that pass, each as often as it occurs, in order, as a subsequence |

## Left out

- Unicode detail of the string built-ins:
  - `toLowerCase`/`toUpperCase` fold ASCII letters only;
  - `.length` is the number of characters, not of UTF-16 code units.
  
  `\s` and `trim()` use the full ECMAScript whitespace set.
- The simulated request delays and toasts, and how the pages continue after
  the delay. Navigation, and the `localStorage`/`sessionStorage` writes, are
  also left out. Two things that would have happened there are modelled:
  - what a page would store or hand on (`RememberedUser` and the returned
    navigation states);
  - the end of loading (`FinishSubmit`).
- `saveMemberData`'s read and write of `localStorage`. `SaveMembers` takes
  the stored list as an argument and returns the new one.
- `Date.now()` and `new Date().toISOString()` are passed in as parameters.
  `Date` values are integers.
- `FileReader` is left out. `OnImageLoaded` is its `onloadend`.
- DOM effects are left out:
  - focus movement between code boxes;
  - scrolling to the first error;
  - the `memberData` effect that writes into the form's inputs;
  - `handleSelectChange`'s write into the hidden input.
- `MemberFormDialog`'s duplicate `handleSubmit` (lines 154-211) is not
  modelled. The form is wired to `handleFormSubmit` only.
- `maxLength={1}` on the code boxes is a browser restriction and is not
  modelled, so `HandleOtpChange` also accepts longer digit strings.
  `JoinLengthOfSingles` states what holds while every box has at most one
  character. `NoEmptyBoxLength` states what the length check does otherwise.
- VerifyOtpPage.HandleOtpChange: requires an index below six. The handler is
  only bound to the six boxes. The `index < 5` focus branch is left out.
- VerifyOtpPage.HandleSubmit: the error object is not cleared on success,
  as in the source.
- The countdown's `setTimeout` scheduling becomes `Tick`. The model does not
  capture when ticks happen.
- Rendering of the error messages, the avatar and the static markup is left
  out. So is the dropdowns' presentational state, such as the popover being
  open.
- The search, filter, sort and paginate pipeline over table rows is not
  modelled, because the source has none:
  - `src/pages/Members.tsx`, `src/pages/Dashboard.tsx` and
    `src/pages/Contributions.tsx` render fixed arrays;
  - their controls are unwired.
- These parts of the source are not part of this model:
  - `server.js`, an OAuth server over libraries that are not shown;
  - `src/contexts/AuthContext.tsx` and `src/components/LogoutButton.tsx`,
    which are storage, timers and page reloads;
  - the presentational components.
- Signup.SubmitDisabled, Login.SubmitDisabled and ForgotPassword.SubmitDisabled:
  each contract relates the button to acceptance in the two directions that
  matter. None restates the `disabled` expression as an if-and-only-if,
  because that would repeat the body.
