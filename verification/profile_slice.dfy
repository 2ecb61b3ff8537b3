/**
 * The candidate profile slice of the Redux store: the loaded profile, the
 * loading and error fields, and whether the profile form is shown.
 */
module ProfileSlice {
  import opened Wrappers

  /** `ProfileData`. */
  datatype ProfileData = ProfileData(
    fullName: string, phone: string, experience: string, linkedin: string, email: string,
    updatedAt: Option<string>)

  datatype ProfileState = ProfileState(
    profileData: Option<ProfileData>, isLoading: bool, error: Option<string>, showProfileForm: bool)

  /** `initialState` (lines 20-25). */
  const Initial: ProfileState := ProfileState(None, true, None, true)

  /** `!payload?.full_name`: the form is shown when no name is known. */
  predicate NeedsForm(payload: Option<ProfileData>) {
    payload.None? || payload.value.fullName == ""
  }

  class ProfileStore {
    var profileData: Option<ProfileData>
    var isLoading: bool
    var error: Option<string>
    var showProfileForm: bool

    function State(): ProfileState
      reads this
    {
      ProfileState(profileData, isLoading, error, showProfileForm)
    }

    constructor ()
      ensures State() == Initial
    {
      profileData := None;
      isLoading := true;
      error := None;
      showProfileForm := true;
    }

    /** `setShowProfileForm` (lines 83-85). */
    method SetShowProfileForm(value: bool)
      modifies this
      ensures State() == old(State()).(showProfileForm := value)
    {
      showProfileForm := value;
    }

    /** `fetchProfile.pending` (lines 89-92). */
    method FetchPending()
      modifies this
      ensures State() == old(State()).(isLoading := true, error := None)
    {
      isLoading := true;
      error := None;
    }

    /** `fetchProfile.fulfilled` (lines 93-97). */
    method FetchFulfilled(payload: Option<ProfileData>)
      modifies this
      ensures State() == old(State()).(isLoading := false, profileData := payload, showProfileForm := NeedsForm(payload))
    {
      isLoading := false;
      profileData := payload;
      showProfileForm := !(payload.Some? && payload.value.fullName != "");
    }

    /** `fetchProfile.rejected` (lines 98-101): the profile already loaded is kept. */
    method FetchRejected(message: string)
      modifies this
      ensures State() == old(State()).(isLoading := false, error := Some(message))
    {
      isLoading := false;
      error := Some(message);
    }

    /** `updateProfile.fulfilled` (lines 102-105). */
    method UpdateFulfilled(formData: ProfileData)
      modifies this
      ensures State() == old(State()).(profileData := Some(formData), showProfileForm := false)
    {
      profileData := Some(formData);
      showProfileForm := false;
    }

    /** `updateProfile.rejected` (lines 106-108). */
    method UpdateRejected(message: string)
      modifies this
      ensures State() == old(State()).(error := Some(message))
    {
      error := Some(message);
    }

    /** A whole fetch: pending, then fulfilled or rejected by the thunk's result. */
    method Fetch(result: Result<Option<ProfileData>, string>)
      modifies this
      ensures !isLoading
      ensures result.Ok? ==>
        profileData == result.value && error == None &&
        (showProfileForm <==> result.value.None? || result.value.value.fullName == "")
      ensures result.Err? ==>
        profileData == old(profileData) && showProfileForm == old(showProfileForm) && error == Some(result.error)
    {
      FetchPending();
      match result {
        case Ok(p) => FetchFulfilled(p);
        case Err(m) => FetchRejected(m);
      }
    }
  }
}
