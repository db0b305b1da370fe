/**
 * The profile-update handler's checks and the record it stores: sign-in first, then
 * username and country present, the country one of the three Baltic states, a given
 * language one of the four supported ones; an absent language is stored as English
 * and an absent VAT number as null.
 */
module ProfileUpdate {
  import opened Wrappers
  import Validation

  /**
   * The request body. An empty string stands for a field that is absent or empty
   * (both falsy in the handler).
   */
  datatype ProfileUpdateRequest = ProfileUpdateRequest(
    username: string,
    country: string,
    preferredLanguage: string,
    vatNumber: string)

  datatype ProfileUpdateError =
    | ProfileUnauthorized        // 401
    | UsernameAndCountryRequired // 400 "Username and country are required"
    | InvalidCountry             // 400
    | InvalidLanguage            // 400
    | UpdateFailed               // 500 "Failed to update profile"

  /** The fields passed to the profile store. */
  datatype ProfileRecord = ProfileRecord(
    username: string,
    country: string,
    preferredLanguage: string,
    vatNumber: Option<string>)

  /**
   * The handler: its checks in order, then the update, whose refusal by the store is
   * `updateFails`.
   */
  function UpdateProfile(signedIn: bool, req: ProfileUpdateRequest, updateFails: bool)
    : (r: Result<ProfileRecord, ProfileUpdateError>)
    ensures !signedIn <==> r == Failure(ProfileUnauthorized)
    ensures r == Failure(UsernameAndCountryRequired) <==>
              signedIn && (req.username == "" || req.country == "")
    ensures r == Failure(InvalidCountry) <==>
              signedIn && req.username != "" && req.country != "" && req.country !in Validation.Countries
    ensures r == Failure(InvalidLanguage) <==>
              && signedIn && req.username != "" && req.country in Validation.Countries
              && req.preferredLanguage != "" && req.preferredLanguage !in Validation.Languages
    ensures r.Success? <==>
              && signedIn && req.username != "" && req.country in Validation.Countries
              && (req.preferredLanguage == "" || req.preferredLanguage in Validation.Languages)
              && !updateFails
    ensures r.Success? ==>
              && r.value.username == req.username && r.value.country == req.country
              && r.value.preferredLanguage in Validation.Languages
              && (req.preferredLanguage == "" ==> r.value.preferredLanguage == "en")
              && (req.preferredLanguage != "" ==> r.value.preferredLanguage == req.preferredLanguage)
              && (r.value.vatNumber.None? <==> req.vatNumber == "")
              && (r.value.vatNumber.Some? ==> r.value.vatNumber.value == req.vatNumber)
  {
    if !signedIn then Failure(ProfileUnauthorized)
    else if req.username == "" || req.country == "" then Failure(UsernameAndCountryRequired)
    else if req.country !in Validation.Countries then Failure(InvalidCountry)
    else if req.preferredLanguage != "" && req.preferredLanguage !in Validation.Languages then Failure(InvalidLanguage)
    else if updateFails then Failure(UpdateFailed)
    else
      Success(ProfileRecord(
        req.username,
        req.country,
        if req.preferredLanguage == "" then "en" else req.preferredLanguage,
        if req.vatNumber == "" then None else Some(req.vatNumber)))
  }

  /** The request a client builds from a profile input, leaving absent fields empty. */
  function RequestOf(u: Validation.UserProfileInput): (req: ProfileUpdateRequest)
    ensures req.username == u.username && req.country == u.country
  {
    ProfileUpdateRequest(
      u.username,
      u.country,
      if u.preferredLanguage.Some? then u.preferredLanguage.value else "",
      if u.vatNumber.Given? then u.vatNumber.value else "")
  }

  /**
   * A profile that conforms to the profile schema passes all of the handler's checks
   * and is stored with its own username, country, language (English when absent) and
   * VAT number (null when absent or null).
   */
  lemma SchemaValidProfileIsStored(u: Validation.UserProfileInput)
    requires Validation.UserProfileValid(u)
    ensures var r := UpdateProfile(true, RequestOf(u), false);
            && r.Success?
            && r.value.preferredLanguage == u.preferredLanguage.GetOr("en")
            && (r.value.vatNumber.Some? <==> u.vatNumber.Given?)
  {
    if u.preferredLanguage.Some? {
      assert u.preferredLanguage.value != "";
    }
    if u.vatNumber.Given? {
      assert |u.vatNumber.value| >= 3;
    }
  }

  /**
   * The handler does not apply the profile schema's username rule: a one-letter
   * username is stored although the schema requires at least three characters.
   */
  lemma HandlerAcceptsShortUsername()
    ensures var u := Validation.UserProfileInput("a", "EE", None, Validation.Absent);
            && !Validation.UserProfileValid(u)
            && UpdateProfile(true, RequestOf(u), false).Success?
  {
  }
}
