/**
 * The candidate onboarding hook: which step (profile, resume, dashboard) the
 * candidate is at, and where a page sends them when they are elsewhere.
 */
module OnboardingStep {
  import opened Wrappers

  datatype Step = ProfileStep | ResumeStep | DashboardStep

  /** The `profiles` row; a field is `None` when it is missing or null. */
  datatype ProfileRow = ProfileRow(
    fullName: Option<string>,
    phone: Option<string>,
    experience: Option<string>,
    linkedin: Option<string>,
    email: Option<string>)

  /** A field that is present and non-empty (JavaScript truthiness of a string). */
  predicate Filled(f: Option<string>) {
    f.Some? && f.value != ""
  }

  /** All five required fields are filled (line 28). */
  predicate Complete(profile: Option<ProfileRow>) {
    profile.Some? &&
    Filled(profile.value.fullName) && Filled(profile.value.phone) && Filled(profile.value.experience) &&
    Filled(profile.value.linkedin) && Filled(profile.value.email)
  }

  /**
   * The step `fetchProfile` chooses (lines 28-41): `profile` is what `.single()`
   * returned and `resumes` the ids of the candidate's resumes, `None` for null data.
   */
  function StepFor(profile: Option<ProfileRow>, resumes: Option<seq<nat>>): Step {
    if !Complete(profile) then ProfileStep
    else if resumes.None? || |resumes.value| == 0 then ResumeStep
    else DashboardStep
  }

  /** The page each step lives on (lines 51-57). */
  function PageOf(step: Step): (page: string)
    ensures page in {"/candidates/onboarding/profile", "/candidates/upload-resume", "/candidates/dashboard"}
  {
    match step
    case ProfileStep => "/candidates/onboarding/profile"
    case ResumeStep => "/candidates/upload-resume"
    case DashboardStep => "/candidates/dashboard"
  }

  /** The hook's state. */
  class Onboarding {
    var loading: bool
    var step: Step
    var profile: Option<ProfileRow>

    /** The initial state (lines 6-8). */
    constructor ()
      ensures loading && step == ProfileStep && profile == None
    {
      loading := true;
      step := ProfileStep;
      profile := None;
    }

    /**
     * `fetchProfile` (lines 12-43); `userId` is the session's user, if any, and
     * the other two parameters are what the two queries return.
     */
    method FetchProfile(userId: Option<string>, profileData: Option<ProfileRow>, resumes: Option<seq<nat>>)
      modifies this
      ensures !loading
      ensures userId.None? ==> step == old(step) && profile == old(profile)
      ensures userId.Some? ==> step == StepFor(profileData, resumes) && profile == profileData
    {
      loading := true;
      if userId.None? {
        loading := false;
        return;
      }
      profile := profileData;
      if !Complete(profileData) {
        step := ProfileStep;
      } else {
        if resumes.None? || |resumes.value| == 0 {
          step := ResumeStep;
        } else {
          step := DashboardStep;
        }
      }
      loading := false;
    }

    /** `redirectIfNeeded(currentPage)` (lines 49-58): the page `router.replace` is sent to, if any. */
    function RedirectIfNeeded(currentPage: Step): (target: Option<string>)
      reads this
      ensures loading ==> target == None
      ensures currentPage == step ==> target == None
      ensures !loading && currentPage != step ==> target == Some(PageOf(step))
    {
      if loading then None
      else if currentPage != step then Some(PageOf(step))
      else None
    }
  }

  // ---------------------------------------------------------------------------
  // Properties
  // ---------------------------------------------------------------------------

  /** The three steps, each by exactly its condition. */
  lemma StepConditions(profile: Option<ProfileRow>, resumes: Option<seq<nat>>)
    ensures StepFor(profile, resumes) == ProfileStep <==>
      profile.None? || !Filled(profile.value.fullName) || !Filled(profile.value.phone) ||
      !Filled(profile.value.experience) || !Filled(profile.value.linkedin) || !Filled(profile.value.email)
    ensures StepFor(profile, resumes) == ResumeStep <==> Complete(profile) && (resumes.None? || resumes.value == [])
    ensures StepFor(profile, resumes) == DashboardStep <==> Complete(profile) && resumes.Some? && resumes.value != []
  {
  }

  /** Different steps live on different pages, so a redirect target names the step. */
  lemma PagesDistinct(a: Step, b: Step)
    ensures PageOf(a) == PageOf(b) <==> a == b
  {
  }
}
