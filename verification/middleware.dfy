/**
 * The Next.js route guard: which requests pass, and where the others are
 * sent, given the path, the session (if any) and the user's roles.
 */
module Middleware {
  import opened Wrappers
  import opened Text

  /**
   * The session as the guard sees it; `roles` is `None` when the user, its
   * metadata or the roles entry is missing.
   */
  datatype Session = NoSession | Session(roles: Option<seq<string>>)

  datatype Decision = Next | Redirect(target: string)

  const LoginPage: string := "/login"
  const RecruiterLoginPage: string := "/recruiters/login"
  const RecruiterHome: string := "/recruiters"
  const CandidateHome: string := "/candidates"

  /** Login and sign-up pages, matched anywhere in the path (lines 6-12). */
  predicate IsAuthPage(path: string) {
    Contains(path, "/login") || Contains(path, "/signup") || Contains(path, "/recruiters/signup")
  }

  /** `roles || []`: a missing list reads as no roles (line 47). */
  function RolesOf(roles: Option<seq<string>>): seq<string> {
    match roles
    case None => []
    case Some(rs) => rs
  }

  predicate IsRecruiter(roles: Option<seq<string>>) {
    "recruiter" in RolesOf(roles)
  }

  /** `middleware(request)` (lines 4-63). */
  function Decide(path: string, session: Session): (d: Decision)
    ensures IsAuthPage(path) ==> d == Next
    ensures d.Redirect? ==> d.target in {LoginPage, RecruiterLoginPage, RecruiterHome, CandidateHome}
  {
    if IsAuthPage(path) then Next
    else if session.NoSession? then
      if StartsWith(path, "/candidates") then Redirect(LoginPage)
      else if StartsWith(path, "/recruiters") then Redirect(RecruiterLoginPage)
      else Next
    else
      var recruiter := IsRecruiter(session.roles);
      if recruiter && StartsWith(path, "/candidates") then Redirect(RecruiterHome)
      else if !recruiter && StartsWith(path, "/recruiters") then Redirect(CandidateHome)
      else Next
  }

  // ---------------------------------------------------------------------------
  // Properties
  // ---------------------------------------------------------------------------

  /** Without a session, each protected area sends the visitor to its own login page. */
  lemma UnauthenticatedGoToLogin(path: string)
    requires !IsAuthPage(path)
    ensures StartsWith(path, "/candidates") ==> Decide(path, NoSession) == Redirect(LoginPage)
    ensures StartsWith(path, "/recruiters") ==> Decide(path, NoSession) == Redirect(RecruiterLoginPage)
    ensures !StartsWith(path, "/candidates") && !StartsWith(path, "/recruiters") ==> Decide(path, NoSession) == Next
  {
    if StartsWith(path, "/recruiters") {
      assert path[0..11] == "/recruiters";
      assert !StartsWith(path, "/candidates") by {
        assert path[1] == 'r';
      }
    }
  }

  /** A signed-in user is kept on the side of the site that matches the role. */
  lemma SignedInKeptOnOwnSide(path: string, roles: Option<seq<string>>)
    requires !IsAuthPage(path)
    ensures IsRecruiter(roles) && StartsWith(path, "/candidates") ==>
      Decide(path, Session(roles)) == Redirect(RecruiterHome)
    ensures !IsRecruiter(roles) && StartsWith(path, "/recruiters") ==>
      Decide(path, Session(roles)) == Redirect(CandidateHome)
    ensures ((IsRecruiter(roles) && !StartsWith(path, "/candidates")) ||
             (!IsRecruiter(roles) && !StartsWith(path, "/recruiters"))) ==>
      Decide(path, Session(roles)) == Next
  {
  }

  /** Missing roles are treated as an empty list, so the user is not a recruiter. */
  lemma MissingRolesMeanCandidate(path: string)
    ensures Decide(path, Session(None)) == Decide(path, Session(Some([])))
    ensures !IsRecruiter(None)
  {
  }

  /** Following a redirect with the same session is let through: the guard never loops. */
  lemma NoRedirectLoops(path: string, session: Session)
    requires Decide(path, session).Redirect?
    ensures Decide(Decide(path, session).target, session) == Next
  {
    var t := Decide(path, session).target;
    if t == LoginPage {
      assert OccursAt(t, "/login", 0);
    } else if t == RecruiterLoginPage {
      assert OccursAt(t, "/login", 11);
    } else if t == RecruiterHome {
      assert !StartsWith(t, "/candidates") by {
        assert t[1] == 'r';
      }
    } else {
      assert !StartsWith(t, "/recruiters") by {
        assert t[1] == 'c';
      }
    }
  }
}
