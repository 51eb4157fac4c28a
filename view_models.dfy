/**
 * The form objects of the account page (AccountDetailsViewModel.cs) and the
 * validity that `[Required]` gives them. `[Display]` and `[DataType]` only
 * drive rendering and contribute nothing to validity.
 */
module ViewModels {
  import opened Nullable

  /** `char.IsWhiteSpace`: the control characters U+0009..U+000D, U+0085 and
      the Unicode space, line and paragraph separators. */
  predicate IsWhiteSpace(c: char)
    // the ASCII blanks are white space; letters, digits and punctuation of ASCII are not
    ensures c == ' ' || c == '\t' || c == '\n' || c == '\r' ==> IsWhiteSpace(c)
    ensures '!' <= c <= '~' ==> !IsWhiteSpace(c)
  {
    || ('\t' <= c <= '\r')
    || c == ' '
    || c == '\U{85}'
    || c == '\U{A0}'
    || c == '\U{1680}'
    || ('\U{2000}' <= c <= '\U{200A}')
    || c == '\U{2028}'
    || c == '\U{2029}'
    || c == '\U{202F}'
    || c == '\U{205F}'
    || c == '\U{3000}'
  }

  /** The scan of `string.IsNullOrWhiteSpace` over a non-null string. */
  function AllWhiteSpace(s: string): (b: bool)
    ensures b <==> forall i :: 0 <= i < |s| ==> IsWhiteSpace(s[i])
  {
    if s == [] then true else IsWhiteSpace(s[0]) && AllWhiteSpace(s[1..])
  }

  /** `[Required]` on a string property (AllowEmptyStrings is false): null,
      empty and white-space-only values are rejected. */
  function Required(v: Option<string>): (ok: bool)
    ensures ok <==> v.Some? && exists i :: 0 <= i < |v.value| && !IsWhiteSpace(v.value[i])
  {
    v.Some? && !AllWhiteSpace(v.value)
  }

  /** The basic-information form. ProfileImage is a byte array that no
      operation of the account page fills in. */
  datatype AccountBasicInfo = AccountBasicInfo(
    firstName: Option<string>,
    lastName: Option<string>,
    email: Option<string>,
    phoneNumber: Option<string>,
    bio: Option<string>,
    profileImage: Option<seq<bv8>>)

  /** The address form (the source's spelling "Adress" is kept). */
  datatype AccountAdressInfo = AccountAdressInfo(
    adressLine1: Option<string>,
    adressLine2: Option<string>,
    postalCode: Option<string>,
    city: Option<string>)

  /** The page model: one sub-object per form. */
  datatype AccountDetailsViewModel = AccountDetailsViewModel(
    basic: Option<AccountBasicInfo>,
    adress: Option<AccountAdressInfo>)

  /** What `TryValidateModel` decides for a basic-information form: first
      name, last name and e-mail are each present with a character that is
      not white space. */
  predicate BasicInfoValid(b: AccountBasicInfo)
    ensures BasicInfoValid(b) <==>
      && b.firstName.Some? && HasContent(b.firstName.value)
      && b.lastName.Some? && HasContent(b.lastName.value)
      && b.email.Some? && HasContent(b.email.value)
  {
    Required(b.firstName) && Required(b.lastName) && Required(b.email)
  }

  /** What `TryValidateModel` decides for an address form: line 1, postal
      code and city are each present with a character that is not white
      space. */
  predicate AdressInfoValid(a: AccountAdressInfo)
    ensures AdressInfoValid(a) <==>
      && a.adressLine1.Some? && HasContent(a.adressLine1.value)
      && a.postalCode.Some? && HasContent(a.postalCode.value)
      && a.city.Some? && HasContent(a.city.value)
  {
    Required(a.adressLine1) && Required(a.postalCode) && Required(a.city)
  }

  /** A string that holds at least one character that is not white space. */
  predicate HasContent(s: string) {
    exists i :: 0 <= i < |s| && !IsWhiteSpace(s[i])
  }

  /** Null, empty and white-space-only values all fail `[Required]`. */
  lemma RequiredRejectsBlank(s: string)
    requires AllWhiteSpace(s)
    ensures !Required(None) && !Required(Some([])) && !Required(Some(s))
  {
  }

  /** `[DataType(EmailAddress)]` is no format check: any e-mail value with
      content passes when the names do, and so does one without '@'. */
  lemma EmailNeedsNoFormat(b: AccountBasicInfo, email: string)
    requires Required(b.firstName) && Required(b.lastName)
    requires HasContent(email)
    ensures BasicInfoValid(b.(email := Some(email)))
    ensures BasicInfoValid(AccountBasicInfo(Some("Ann"), Some("Lee"), Some("ann at x"), None, None, None))
  {
    assert !IsWhiteSpace("Ann"[0]) && !IsWhiteSpace("Lee"[0]) && !IsWhiteSpace("ann at x"[0]);
  }

  /** Phone number, bio and profile image carry no validation attribute. */
  lemma BasicValidityIgnoresOptionalFields(b: AccountBasicInfo, phone: Option<string>,
                                            bio: Option<string>, image: Option<seq<bv8>>)
    ensures BasicInfoValid(b.(phoneNumber := phone, bio := bio, profileImage := image)) == BasicInfoValid(b)
  {
  }

  /** Address line 2 carries no validation attribute. */
  lemma AdressValidityIgnoresLine2(a: AccountAdressInfo, line2: Option<string>)
    ensures AdressInfoValid(a.(adressLine2 := line2)) == AdressInfoValid(a)
  {
  }
}
