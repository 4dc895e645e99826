/**
 * Accounts: the login rate limit kept in `LoginAttempt`, the feedback `login` gives after
 * a failed attempt, the role rules of `signup`, and the Cloudinary identifiers that
 * `EmployeeProfile.set_profile_image` stores. Times are whole seconds.
 */
module Accounts {
  import opened Common
  import opened Text
  import opened Users

  /** One `LoginAttempt` row. */
  datatype Attempt = Attempt(ip: string, success: bool, timestamp: int)

  /** The defaults of `is_rate_limited`: 15 minutes and 5 failures. */
  const Window: int := 15 * 60
  const MaxAttempts: int := 5

  /** The failed attempts from `ip` at or after `since`. */
  function FailedSince(attempts: seq<Attempt>, ip: string, since: int): (n: nat)
    ensures n <= |attempts|
  {
    if |attempts| == 0 then 0
    else
      var a := attempts[|attempts| - 1];
      FailedSince(attempts[..|attempts| - 1], ip, since) + (if a.ip == ip && !a.success && a.timestamp >= since then 1 else 0)
  }

  /** The time of the latest failed attempt from `ip`, if any. */
  function LatestFailure(attempts: seq<Attempt>, ip: string): (t: Option<int>)
    ensures t.Some? ==> exists k :: 0 <= k < |attempts| && attempts[k].ip == ip && !attempts[k].success && attempts[k].timestamp == t.value
    ensures t.Some? ==> forall k :: 0 <= k < |attempts| && attempts[k].ip == ip && !attempts[k].success ==> attempts[k].timestamp <= t.value
    ensures t.None? <==> forall k :: 0 <= k < |attempts| ==> !(attempts[k].ip == ip && !attempts[k].success)
  {
    if |attempts| == 0 then None
    else
      var a := attempts[|attempts| - 1];
      var rest := LatestFailure(attempts[..|attempts| - 1], ip);
      if !(a.ip == ip && !a.success) then rest
      else if rest.None? || rest.value < a.timestamp then Some(a.timestamp)
      else rest
  }

  /** What `is_rate_limited` answers, without its message. */
  datatype RateLimit = RateLimit(limited: bool, remaining: int)

  /**
   * `LoginAttempt.is_rate_limited`: an address is locked, with no attempts remaining, when
   * it has at least `max` failures in the last `window` seconds and its latest failure is
   * less than `window` seconds old; otherwise it has `max` minus those failures left.
   */
  function IsRateLimited(attempts: seq<Attempt>, ip: string, now: int, window: int, max: int): (r: RateLimit)
    ensures r.limited ==> r.remaining == 0 && FailedSince(attempts, ip, now - window) >= max
    ensures r.limited <==>
      (FailedSince(attempts, ip, now - window) >= max && LatestFailure(attempts, ip).Some? &&
       now < LatestFailure(attempts, ip).value + window)
    ensures !r.limited ==> r.remaining == max - FailedSince(attempts, ip, now - window)
  {
    var failed := FailedSince(attempts, ip, now - window);
    var latest := LatestFailure(attempts, ip);
    if failed >= max && latest.Some? && now < latest.value + window then RateLimit(true, 0)
    else RateLimit(false, max - failed)
  }

  /** A failure logged now is one more failure inside the window. */
  lemma FailureCounts(attempts: seq<Attempt>, ip: string, now: int, window: int)
    requires window >= 0
    ensures FailedSince(attempts + [Attempt(ip, false, now)], ip, now - window) == FailedSince(attempts, ip, now - window) + 1
  {
    assert (attempts + [Attempt(ip, false, now)])[..|attempts|] == attempts;
  }

  /** With `max` recent failures and one of them less than `window` old, the address is locked. */
  lemma {:induction false} RecentFailuresLock(attempts: seq<Attempt>, ip: string, now: int, window: int, max: int, k: nat)
    requires k < |attempts| && attempts[k].ip == ip && !attempts[k].success && now < attempts[k].timestamp + window
    requires FailedSince(attempts, ip, now - window) >= max
    ensures IsRateLimited(attempts, ip, now, window, max).limited
  {
  }

  /** How a `login` ends: signed in, or the locked or the invalid-credentials message. */
  datatype LoginResult = LoggedIn | Locked | Invalid(remaining: int)

  /** The `LoginAttempt` table. */
  class AttemptLog {
    var attempts: seq<Attempt>

    constructor ()
      ensures attempts == []
    {
      attempts := [];
    }

    /**
     * `login` with a valid form: right credentials sign in whatever the rate limit says,
     * logging a success twice (`log_attempt` and `reset_for_ip`); wrong ones log a failure
     * and report the lock once no attempts remain, else how many remain.
     */
    method Login(ip: string, authenticated: bool, now: int) returns (r: LoginResult)
      modifies this
      ensures authenticated ==> r == LoggedIn && attempts == old(attempts) + [Attempt(ip, true, now), Attempt(ip, true, now)]
      ensures !authenticated ==> attempts == old(attempts) + [Attempt(ip, false, now)]
      ensures !authenticated ==> (r == Locked <==> FailedSince(old(attempts), ip, now - Window) + 1 >= MaxAttempts)
      ensures r.Invalid? ==> r.remaining == MaxAttempts - 1 - FailedSince(old(attempts), ip, now - Window)
      ensures r.Invalid? ==> 1 <= r.remaining < MaxAttempts
    {
      if authenticated {
        attempts := attempts + [Attempt(ip, true, now)];
        attempts := attempts + [Attempt(ip, true, now)];
        return LoggedIn;
      }
      FailureCounts(attempts, ip, now, Window);
      attempts := attempts + [Attempt(ip, false, now)];
      var limit := IsRateLimited(attempts, ip, now, Window, MaxAttempts);
      if limit.remaining <= 0 {
        r := Locked;
      } else {
        r := Invalid(limit.remaining);
      }
    }
  }

  /** The department choices of `SignupForm`. */
  predicate Department(d: string)
  {
    d == "mathematics" || d == "science" || d == "english" || d == "social_studies" || d == "languages" ||
    d == "arts" || d == "physical_education" || d == "special_education" || d == "administration" ||
    d == "counseling" || d == "library"
  }

  /** A `SignupForm` submission. */
  datatype SignupFields = SignupFields(username: string, email: string, password: string, confirm: string,
                                       department: string, role: string)

  /**
   * `SignupForm.validate_on_submit()`; once an administrator exists, `signup` takes `admin`
   * out of the role choices. Whether the address passes the `Email()` check is an input.
   */
  predicate SignupFormValid(f: SignupFields, adminExists: bool, emailWellFormed: bool)
  {
    Strip(f.username) != "" && 3 <= |f.username| <= 80 &&
    Strip(f.email) != "" && emailWellFormed &&
    Strip(f.password) != "" && |f.password| >= 8 &&
    Strip(f.confirm) != "" && f.confirm == f.password &&
    Department(f.department) &&
    (f.role == "employee" || f.role == "hr" || (f.role == "admin" && !adminExists))
  }

  /**
   * The role `signup` stores: the first user keeps the requested one; anyone later asking
   * for `admin` or `hr` gets `employee` (the visitor is never signed in at that point).
   */
  function SignupRole(requested: string, firstUser: bool): (role: string)
    ensures firstUser || requested == "employee" ==> role == requested
    ensures !firstUser && (requested == "admin" || requested == "hr") ==> role == "employee"
    ensures role == requested || role == "employee"
  {
    if !firstUser && (requested == "admin" || requested == "hr") then "employee" else requested
  }

  /** How `signup` ends. */
  datatype SignupResult = AlreadySignedIn | FormInvalid | EmailTaken | UsernameTaken | Created(user: User)

  predicate EmailTakenIn(users: seq<User>, email: string) { exists k :: 0 <= k < |users| && users[k].email == email }

  predicate UsernameTakenIn(users: seq<User>, name: string) { exists k :: 0 <= k < |users| && users[k].username == name }

  predicate AdminIn(users: seq<User>) { exists k :: 0 <= k < |users| && IsAdmin(users[k]) }

  /** The `User` table. */
  class UserTable {
    var users: seq<User>

    constructor ()
      ensures users == []
    {
      users := [];
    }

    /**
     * `signup`: a signed-in visitor is sent away; a valid form is refused when the email
     * and then when the username is taken; otherwise one user is added with the role
     * `SignupRole` gives.
     */
    method Signup(signedIn: bool, f: SignupFields, emailWellFormed: bool, newId: int) returns (r: SignupResult)
      modifies this
      ensures r == AlreadySignedIn <==> signedIn
      ensures r == FormInvalid <==> !signedIn && !SignupFormValid(f, AdminIn(old(users)), emailWellFormed)
      ensures r == EmailTaken <==>
        !signedIn && SignupFormValid(f, AdminIn(old(users)), emailWellFormed) && EmailTakenIn(old(users), f.email)
      ensures r == UsernameTaken <==>
        (!signedIn && SignupFormValid(f, AdminIn(old(users)), emailWellFormed) && !EmailTakenIn(old(users), f.email) &&
         UsernameTakenIn(old(users), f.username))
      ensures !r.Created? ==> users == old(users)
      ensures r.Created? ==>
        r.user == User(newId, f.username, f.email, SignupRole(f.role, |old(users)| == 0), f.department) &&
        users == old(users) + [r.user]
    {
      if signedIn {
        return AlreadySignedIn;
      }
      var adminExists := AdminIn(users);
      if !SignupFormValid(f, adminExists, emailWellFormed) {
        return FormInvalid;
      }
      if EmailTakenIn(users, f.email) {
        return EmailTaken;
      }
      if UsernameTakenIn(users, f.username) {
        return UsernameTaken;
      }
      var role := SignupRole(f.role, |users| == 0);
      var user := User(newId, f.username, f.email, role, f.department);
      users := users + [user];
      r := Created(user);
    }
  }

  /**
   * Only the very first account can be HR or an administrator: every later signup is an
   * employee, and no signup creates a second administrator.
   */
  lemma LaterSignupsAreEmployees(users: seq<User>, f: SignupFields, emailWellFormed: bool)
    requires |users| > 0 && SignupFormValid(f, AdminIn(users), emailWellFormed)
    ensures SignupRole(f.role, |users| == 0) == "employee"
  {
  }

  /** The stored Cloudinary identifiers of a profile picture. */
  class EmployeeProfile {
    var folder: Option<string>
    var publicId: Option<string>
    var version: Option<string>

    constructor ()
      ensures folder.None? && publicId.None? && version.None?
    {
      folder, publicId, version := None, None, None;
    }

    /** `has_profile_image`: an id other than the placeholder `default-profile`. */
    predicate HasProfileImage()
      reads this
    {
      publicId.Some? && publicId.value != "" && publicId.value != "default-profile"
    }

    /**
     * `set_profile_image`: with no `public_id` in the upload result, nothing changes and
     * the answer is false. Otherwise the folder is the part before the first `/` and the
     * id the rest (or `hr_profile_pictures` and the whole id when there is no `/`), and the
     * version is stored as text, empty when absent.
     */
    method SetProfileImage(result: map<string, string>) returns (ok: bool)
      modifies this
      ensures ok <==> "public_id" in result
      ensures !ok ==> folder == old(folder) && publicId == old(publicId) && version == old(version)
      ensures ok ==> folder.Some? && publicId.Some? && version.Some?
      ensures ok && '/' in result["public_id"] ==>
        '/' !in folder.value && folder.value + "/" + publicId.value == result["public_id"]
      ensures ok && '/' !in result["public_id"] ==>
        folder == Some("hr_profile_pictures") && publicId == Some(result["public_id"])
      ensures ok ==> version == Some(if "version" in result then result["version"] else "")
      ensures ok && '/' !in result["public_id"] ==>
        (HasProfileImage() <==> result["public_id"] != "" && result["public_id"] != "default-profile")
    {
      if "public_id" !in result {
        return false;
      }
      var full := result["public_id"];
      if '/' in full {
        var parts := Split(full, '/');
        folder := Some(parts[0]);
        publicId := Some(Join(parts[1..], '/'));
        JoinHead(parts, '/');
        SplitJoin(full, '/');
      } else {
        folder := Some("hr_profile_pictures");
        publicId := Some(full);
      }
      version := Some(if "version" in result then result["version"] else "");
      ok := true;
    }
  }
}
