# Account profile workflow

A Dafny model of the account page of the web application: the
`AccountController` actions that show and edit the signed-in user's profile
(`Details`, `UpdateBasicInfo`, `UpdateAddressInfo`, `UploadProfileImage`),
and the `[Required]` rules of the two forms they validate
(`AccountBasicInfo`, `AccountAdressInfo`).

- `nullable.dfy` (`Nullable`): `Option`, standing for a C# nullable reference.
- `view_models.dfy` (`ViewModels`): the form datatypes, `[Required]` as
  "non-null and not empty or white space" (`string.IsNullOrWhiteSpace` with
  `char.IsWhiteSpace`), and one validity predicate per form.
- `entities.dfy` (`Entities`): the user and address records and the store
  invariant (each user filed under its own id; every address valid, with a key
  below the next one to hand out and owned by exactly one user).
- `profile_images.dfy` (`ProfileImages`): the upload's file name
  `p_<user id>_<guid><extension>`, with `Guid.ToString()` (32 lower-case hex
  digits in 8-4-4-4-12 groups) and `Path.GetExtension`.
- `account_controller.dfy` (`Controllers`): class `AccountController` with the
  user store (`users`, a map from id to user), the status slot
  (`statusMessage`, standing for `TempData["StatusMessage"]`) and the store's
  next address key. `Details` is a function; the three updates are methods
  whose contracts give the whole new state on every path.
- `scenarios.dfy` (`Scenarios`): two-step uses proved from the contracts alone.

The source edits a tracked entity in memory and then saves it. The model does
the same edits on a local copy of the user record; the store is reassigned
only when the save succeeds. Which way each save goes is a parameter
(`saveSucceeds`). The signed-in user's id and the new GUID are parameters too.

Where the code and the written design of the system differ, the model follows
the code:
- `Details` has no not-found branch; it dereferences the user, so "the user
  exists" is its precondition.
- With no address, `Details` shows null address fields, not empty strings.
- The form never format-checks the e-mail: `[DataType(EmailAddress)]` is
  only a display hint. The user validators that run when the user is saved
  are not modelled (see "Left out").
- The upload ignores the result of saving the user. A failed save there
  leaves the old image reference and sets no status.

## Model

| member | source | states |
|---|---|---|
| `ViewModels.IsWhiteSpace` | WebApp/ViewModels/AccountDetailsViewModel.cs:14-17 | `char.IsWhiteSpace`, the test `[Required]` applies to each character: the ASCII blanks are white space, printable ASCII characters are not |
| `ViewModels.AllWhiteSpace` | WebApp/ViewModels/AccountDetailsViewModel.cs:14-17 | a string is blank exactly when every character is white space |
| `ViewModels.Required` | WebApp/ViewModels/AccountDetailsViewModel.cs:14-17 | `[Required]` accepts a value exactly when it is non-null and has a character that is not white space |
| `ViewModels.BasicInfoValid` | WebApp/ViewModels/AccountDetailsViewModel.cs:12-27 | `TryValidateModel` on the basic form: valid iff first name, last name and e-mail are each non-null with a non-white-space character |
| `ViewModels.RequiredRejectsBlank` | WebApp/ViewModels/AccountDetailsViewModel.cs:14-27 | null, empty and white-space-only values fail `[Required]` |
| `ViewModels.EmailNeedsNoFormat` | WebApp/ViewModels/AccountDetailsViewModel.cs:24-27 | any e-mail with content passes when the names do, including one with no '@' |
| `ViewModels.BasicValidityIgnoresOptionalFields` | WebApp/ViewModels/AccountDetailsViewModel.cs:29-35 | phone number, bio and profile image, null or not, never change basic-form validity |
| `ViewModels.AdressInfoValid` | WebApp/ViewModels/AccountDetailsViewModel.cs:38-53 | `TryValidateModel` on the address form: valid iff line 1, postal code and city are each non-null with a non-white-space character |
| `ViewModels.AdressValidityIgnoresLine2` | WebApp/ViewModels/AccountDetailsViewModel.cs:44-45 | address line 2, null or not, never changes address-form validity |
| `Entities.SaveAdressKeepsInvariant` | WebApp/Controllers/AccountController.cs:105-124 | saving a valid address under the user's existing key or a fresh key keeps every address owned by one user |
| `Entities.SetImageKeepsInvariant` | WebApp/Controllers/AccountController.cs:161-162 | pointing a user at a new image name keeps the store invariant |
| `ProfileImages.GuidToString` | WebApp/Controllers/AccountController.cs:155 | a GUID is written as 36 characters: hyphens at 8, 13, 18, 23 and each hex digit at its place |
| `ProfileImages.GuidToStringInjective` | WebApp/Controllers/AccountController.cs:155 | distinct GUIDs are written differently |
| `ProfileImages.ExtensionFrom` | WebApp/Controllers/AccountController.cs:155 | the right-to-left scan returns the suffix from the first '.' before any separator, or nothing when that '.' is last or a separator comes first |
| `ProfileImages.GetExtension` | WebApp/Controllers/AccountController.cs:155 | the extension is either empty (the name ends in '.' or its last segment has no '.') or a suffix ".x…" with no '.' or separator after its dot |
| `ProfileImages.ExtensionOfSuffix` | WebApp/Controllers/AccountController.cs:155 | any name that ends in a well-formed extension has exactly that extension |
| `ProfileImages.ProfileImageFileName` | WebApp/Controllers/AccountController.cs:155 | the stored name is "p_", the user id, "_", the 36-character GUID text and the extension, in that order |
| `ProfileImages.FileNameDeterminesGuid` | WebApp/Controllers/AccountController.cs:155 | for one user, the stored name determines the GUID and the extension, so two GUIDs never give the same name |
| `ProfileImages.FileNameKeepsExtension` | WebApp/Controllers/AccountController.cs:155 | an upload whose name has an extension gives a stored name with exactly that extension |
| `ProfileImages.FileNameWithoutExtension` | WebApp/Controllers/AccountController.cs:155 | an upload without an extension gives a stored name without one when the user id has no '.'; a '.' in the id would lend the name an extension |
| `Controllers.AccountController.constructor` | WebApp/Controllers/AccountController.cs:20-24 | the controller works over the given store and starts with no status message |
| `Controllers.AccountController.Details` | WebApp/Controllers/AccountController.cs:26-54 | name, e-mail, phone and bio come from the user; address fields come from its address or are all null; the address part would pass validation iff the user has an address |
| `Controllers.AccountController.UpdateBasicInfo` | WebApp/Controllers/AccountController.cs:57-91 | invalid form or failed save: no user changes, status "Unable to save basic information."; unknown user: nothing changes; saved: the five fields are the submitted ones, login name equals e-mail, address and image untouched, Details shows the form, status "Updated basic information successfully." |
| `Controllers.AccountController.UpdateAddressInfo` | WebApp/Controllers/AccountController.cs:94-143 | invalid form or throwing save: store unchanged, status "Unable to save address information."; unknown user: nothing changes; saved: an existing address keeps its key and gets the four fields, otherwise one new address with a fresh key is attached; Details shows the form; status "Updated address information successfully." |
| `Controllers.AccountController.UploadProfileImage` | WebApp/Controllers/AccountController.cs:145-170 | missing user, null file or zero length: store unchanged, status "Unable to upload profile image,"; otherwise status untouched and a saved user points at `p_<id>_<guid><ext>` |
| `Scenarios.SaveAddressTwice` | WebApp/Controllers/AccountController.cs:105-121 | two saves of the address form create one address and then edit that same address |
| `Scenarios.UploadTwice` | WebApp/Controllers/AccountController.cs:153-164 | two uploads with different GUIDs get different names and the user points at the second |

## Left out

- The course list (`CoursesController`) is not part of this model: it is an HTTP call and a JSON library call with no rule of its own.
- Writing the image file (`Path.Combine`, `FileStream`, `CopyToAsync`): only the image reference that follows is modelled, so orphaned files are not.
- `Guid.NewGuid()`, the claims lookup and `GetUserAsync`: the GUID and the signed-in user's id are parameters.
- Saving (`UserManager.UpdateAsync`, `SaveChangesAsync`): an outcome parameter that commits the user or leaves the store unchanged. Normalised names, concurrency stamps and Identity's user validators (which check the login name, set to the new e-mail) are not modelled.
- Controllers.AccountController.UpdateBasicInfo: a save that throws, rather than returning a failed result, ends the request with no status; the model treats every failed save as a returned failure.
- Controllers.AccountController.UpdateAddressInfo: the store's key generator advances only when a new address is saved; key values consumed by failed inserts are not modelled.
- Validation is each sub-form's own `[Required]` rules, so each form's validity depends only on its own sub-object. `TryValidateModel` returns the validity of the whole request state, which can also hold binding errors of the rest of the page model; those are not modelled.
- A posted page model with a null `Basic` or `Adress` sub-object is not modelled: the forms are always present.
- ProfileImages.GetExtension: treats both '/' and '\\' as directory separators, as on Windows; on other hosts only '/' is one.
- Async execution, concurrent requests on one user, redirects and view rendering.
