/**
 * The GitHub REST records the migration reads and writes. Only the fields
 * the drivers consult are kept; URLs, counters, dates and the detail fields
 * of users, teams and apps are not part of this model. Field names follow
 * the wire names in lower camel case (`default_branch` is `defaultBranch`).
 */
module Github {
  import opened Wrappers

  datatype User = User(login: string, id: int)

  datatype Team = Team(id: int, name: string, slug: string)

  datatype App = App(id: int, slug: string, name: string)

  datatype Visibility = Public | Private | Internal

  /** A repository as listed for an organization; the flags and default branch are always present. */
  datatype Repository = Repository(
    name: string,
    fullName: string,
    owner: User,
    defaultBranch: string,
    visibility: Option<Visibility>,
    private: bool,
    fork: bool,
    archived: bool,
    disabled: bool)
  {
    /** Neither archived, private, a fork nor disabled: the repositories both drivers act on. */
    predicate IsActive() {
      !archived && !private && !fork && !disabled
    }
  }

  datatype Commit = Commit(sha: string, url: string)

  /** A Git object a reference points at; the sha is a plain string. */
  datatype GitObject = GitObject(objectType: string, sha: string, url: string)

  /** A Git reference such as `refs/heads/master`. */
  datatype Ref = Ref(ref: string, nodeId: string, url: string, target: GitObject)

  // ---------------------------------------------------------------------
  // Branch protection as read: every part is optional.
  // ---------------------------------------------------------------------

  datatype StatusCheck = StatusCheck(contexts: Option<seq<string>>, enforcementLevel: Option<string>)

  datatype AdminEnforcement = AdminEnforcement(enabled: Option<bool>)

  datatype DismissalRestrictions = DismissalRestrictions(users: Option<seq<User>>, teams: Option<seq<Team>>)

  datatype PullRequestReviewRequirements = PullRequestReviewRequirements(
    dismissalRestrictions: Option<DismissalRestrictions>,
    dismissStaleReviews: Option<bool>,
    requireCodeOwnerReviews: Option<bool>,
    requiredApprovingReviewCount: Option<nat>)

  datatype Restrictions = Restrictions(users: Option<seq<User>>, teams: Option<seq<Team>>, apps: Option<seq<App>>)

  datatype EnableFlag = EnableFlag(enabled: bool)

  datatype Protection = Protection(
    enabled: Option<bool>,
    requiredStatusChecks: Option<StatusCheck>,
    enforceAdmins: Option<AdminEnforcement>,
    requiredPullRequestReviews: Option<PullRequestReviewRequirements>,
    restrictions: Option<Restrictions>,
    requiredLinearHistory: Option<EnableFlag>,
    allowForcePushes: Option<EnableFlag>,
    allowDeletions: Option<EnableFlag>)

  datatype Branch = Branch(name: string, commit: Commit, protected: Option<bool>, protection: Option<Protection>)

  // ---------------------------------------------------------------------
  // Branch protection as written: the three toggles are mandatory.
  // ---------------------------------------------------------------------

  datatype RequiredStatusChecks = RequiredStatusChecks(strict: bool, contexts: seq<string>)

  /** Dismissal restrictions in a write are lists of user logins and team names. */
  datatype DismissalRestrictionsUpdate = DismissalRestrictionsUpdate(users: seq<string>, teams: seq<string>)

  datatype RequiredPullRequestReviews = RequiredPullRequestReviews(
    dismissalRestrictions: Option<DismissalRestrictionsUpdate>,
    dismissStaleReviews: bool,
    requireCodeOwnerReviews: bool,
    requiredApprovingReviewCount: int)

  datatype RestrictionsUpdate = RestrictionsUpdate(users: seq<string>, teams: seq<string>, apps: Option<seq<string>>)

  datatype BranchProtectionUpdate = BranchProtectionUpdate(
    requiredStatusChecks: Option<RequiredStatusChecks>,
    enforceAdmins: Option<bool>,
    requiredPullRequestReviews: Option<RequiredPullRequestReviews>,
    restrictions: Option<RestrictionsUpdate>,
    requiredLinearHistory: bool,
    allowForcePushes: bool,
    allowDeletions: bool)

  // ---------------------------------------------------------------------
  // Repository settings update: every setting is optional and defaults to
  // absent, so the constructor with named arguments is the Swift init.
  // ---------------------------------------------------------------------

  /** The settings a repository update can carry. */
  datatype Setting =
    NameSetting
    | DescriptionSetting
    | HomepageSetting
    | PrivateSetting
    | VisibilitySetting
    | HasIssues
    | HasProjects
    | HasWiki
    | IsTemplate
    | DefaultBranch
    | AllowSquashMerge
    | AllowMergeCommit
    | AllowRebaseMerge
    | DeleteBranchOnMerge
    | ArchivedSetting

  datatype RepositoryUpdate = RepositoryUpdate(
    name: Option<string> := None,
    description: Option<string> := None,
    homepage: Option<string> := None,
    private: Option<bool> := None,
    visibility: Option<Visibility> := None,
    hasIssues: Option<bool> := None,
    hasProjects: Option<bool> := None,
    hasWiki: Option<bool> := None,
    isTemplate: Option<bool> := None,
    defaultBranch: Option<string> := None,
    allowSquashMerge: Option<bool> := None,
    allowMergeCommit: Option<bool> := None,
    allowRebaseMerge: Option<bool> := None,
    deleteBranchOnMerge: Option<bool> := None,
    archived: Option<bool> := None)
  {
    /** Whether this update changes the given setting (its argument was given). */
    predicate Changes(setting: Setting) {
      match setting
      case NameSetting => name.Some?
      case DescriptionSetting => description.Some?
      case HomepageSetting => homepage.Some?
      case PrivateSetting => private.Some?
      case VisibilitySetting => visibility.Some?
      case HasIssues => hasIssues.Some?
      case HasProjects => hasProjects.Some?
      case HasWiki => hasWiki.Some?
      case IsTemplate => isTemplate.Some?
      case DefaultBranch => defaultBranch.Some?
      case AllowSquashMerge => allowSquashMerge.Some?
      case AllowMergeCommit => allowMergeCommit.Some?
      case AllowRebaseMerge => allowRebaseMerge.Some?
      case DeleteBranchOnMerge => deleteBranchOnMerge.Some?
      case ArchivedSetting => archived.Some?
    }
  }

  /**
   * An update built with every argument left at its default changes nothing,
   * and it is the only such update.
   */
  lemma UnchangedIsDefault(u: RepositoryUpdate)
    ensures (forall setting :: !u.Changes(setting)) <==> u == RepositoryUpdate()
  {
    if forall setting :: !u.Changes(setting) {
      assert !u.Changes(NameSetting);
      assert !u.Changes(DescriptionSetting);
      assert !u.Changes(HomepageSetting);
      assert !u.Changes(PrivateSetting);
      assert !u.Changes(VisibilitySetting);
      assert !u.Changes(HasIssues);
      assert !u.Changes(HasProjects);
      assert !u.Changes(HasWiki);
      assert !u.Changes(IsTemplate);
      assert !u.Changes(DefaultBranch);
      assert !u.Changes(AllowSquashMerge);
      assert !u.Changes(AllowMergeCommit);
      assert !u.Changes(AllowRebaseMerge);
      assert !u.Changes(DeleteBranchOnMerge);
      assert !u.Changes(ArchivedSetting);
    }
  }
}
