/** The create-project form as a state machine: the local combobox values,
    whether the user has typed a name, and the three form fields, updated by
    the selection and typing handlers. */
module ProjectForm {
  import opened Wrappers
  import opened Text
  import opened RepoSlug
  import opened FormRules

  /** An entry of the signed-in user's repository list. */
  datatype RepoItem = RepoItem(fullName: string, name: string, defaultBranch: string)

  datatype Fields = Fields(name: string, repo: string, defaultBranch: string)

  datatype State = State(repoValue: string, branchValue: string, nameTouched: bool, fields: Fields)

  const Initial: State := State("", FallbackBranch, false, Fields("", "", FallbackBranch))

  /** The index of the first repository whose full name is `value`. */
  function FindIndex(repos: seq<RepoItem>, value: string): (r: Option<nat>)
    ensures r.Some? ==> r.value < |repos| && repos[r.value].fullName == value
    ensures r.Some? ==> forall j :: 0 <= j < r.value ==> repos[j].fullName != value
    ensures r.None? ==> forall j :: 0 <= j < |repos| ==> repos[j].fullName != value
    decreases |repos|
  {
    if |repos| == 0 then None
    else if repos[0].fullName == value then Some(0)
    else
      match FindIndex(repos[1..], value)
      case None => None
      case Some(i) => Some(i + 1)
  }

  /** `userRepos?.find(item => item.full_name === value)`; the list is absent
      until it has loaded. */
  function Selected(repos: Option<seq<RepoItem>>, value: string): Option<RepoItem> {
    match repos
    case None => None
    case Some(rs) =>
      match FindIndex(rs, value)
      case None => None
      case Some(i) => Some(rs[i])
  }

  /** The matched repository's default branch, or "main". */
  function DefaultBranchFor(selected: Option<RepoItem>): string {
    OrElse(if selected.Some? then selected.value.defaultBranch else "", FallbackBranch)
  }

  /** The matched repository's name, else the second `/`-segment, else "". */
  function SuggestedName(selected: Option<RepoItem>, value: string): string {
    OrElse(OrElse(if selected.Some? then selected.value.name else "", Segment(value, '/', 1)), "")
  }

  /** handleRepoSelection. */
  function SelectRepo(st: State, repos: Option<seq<RepoItem>>, value: string): (next: State)
    ensures next.repoValue == value && next.fields.repo == value
    ensures next.branchValue == next.fields.defaultBranch && next.fields.defaultBranch != ""
    ensures var sel := Selected(repos, value);
      (sel.Some? && sel.value.defaultBranch != "" ==> next.fields.defaultBranch == sel.value.defaultBranch)
      && (sel.None? || sel.value.defaultBranch == "" ==> next.fields.defaultBranch == FallbackBranch)
    ensures next.nameTouched == st.nameTouched
    ensures st.nameTouched ==> next.fields.name == st.fields.name
    ensures !st.nameTouched ==> next.fields.name == SuggestedName(Selected(repos, value), value)
  {
    var selected := Selected(repos, value);
    var branch := DefaultBranchFor(selected);
    var repo := OrElse(value, "");
    var name := if st.nameTouched then st.fields.name else SuggestedName(selected, value);
    State(repo, branch, st.nameTouched, Fields(name, repo, branch))
  }

  /** Typing in the name input. */
  function EditName(st: State, text: string): (next: State)
    ensures next.nameTouched && next.fields.name == text
    ensures next.repoValue == st.repoValue && next.branchValue == st.branchValue
    ensures next.fields.repo == st.fields.repo && next.fields.defaultBranch == st.fields.defaultBranch
  {
    st.(nameTouched := true, fields := st.fields.(name := text))
  }

  /** Picking a branch in the branch combobox; an empty pick means "main". */
  function SelectBranch(st: State, value: string): (next: State)
    ensures next.branchValue == next.fields.defaultBranch && next.fields.defaultBranch != ""
    ensures value != "" ==> next.fields.defaultBranch == value
    ensures value == "" ==> next.fields.defaultBranch == FallbackBranch
    ensures next.fields.name == st.fields.name && next.nameTouched == st.nameTouched
    ensures next.repoValue == st.repoValue && next.fields.repo == st.fields.repo
  {
    var branch := OrElse(value, FallbackBranch);
    st.(branchValue := branch, fields := st.fields.(defaultBranch := branch))
  }

  /** Typing in the plain repository input (shown when no user is signed in). */
  function EditRepo(st: State, text: string): State {
    st.(fields := st.fields.(repo := text))
  }

  /** Typing in the plain branch input. */
  function EditBranch(st: State, text: string): State {
    st.(fields := st.fields.(defaultBranch := text))
  }

  /** The field validators. */
  function ValidateName(value: string): Option<string> {
    Required(value, "Project name is required")
  }

  function ValidateRepo(value: string): Option<string> {
    Required(value, "Repository is required")
  }

  function ValidateDefaultBranch(value: string): Option<string> {
    Required(value, "Branch is required")
  }

  datatype Event =
    | ChooseRepo(value: string)
    | ChooseBranch(value: string)
    | TypeName(text: string)
    | TypeRepo(text: string)
    | TypeBranch(text: string)

  function Update(st: State, repos: Option<seq<RepoItem>>, e: Event): State {
    match e
    case ChooseRepo(v) => SelectRepo(st, repos, v)
    case ChooseBranch(v) => SelectBranch(st, v)
    case TypeName(t) => EditName(st, t)
    case TypeRepo(t) => EditRepo(st, t)
    case TypeBranch(t) => EditBranch(st, t)
  }

  /** The form after a sequence of user actions. */
  function Run(st: State, repos: Option<seq<RepoItem>>, events: seq<Event>): State
    decreases |events|
  {
    if |events| == 0 then st else Run(Update(st, repos, events[0]), repos, events[1..])
  }

  /** Once the user has typed a name, no sequence of other actions changes it
      and the name stays marked as touched. */
  lemma {:induction false} TypedNameSticks(st: State, repos: Option<seq<RepoItem>>, events: seq<Event>)
    requires st.nameTouched
    requires forall i :: 0 <= i < |events| ==> !events[i].TypeName?
    ensures Run(st, repos, events).nameTouched
    ensures Run(st, repos, events).fields.name == st.fields.name
    decreases |events|
  {
    if |events| > 0 {
      TypedNameSticks(Update(st, repos, events[0]), repos, events[1..]);
    }
  }

  /** With no matching repository, "owner/name" suggests "name". */
  lemma SuggestsSecondSegment(owner: string, name: string, rest: string)
    requires owner != "" && name != "" && '/' !in owner && '/' !in name
    requires rest == "" || rest[0] == '/'
    ensures SuggestedName(None, owner + "/" + name + rest) == name
  {
    SlugAccepted(owner, name, rest);
  }

  /** The form starts with nothing chosen and nothing typed: the name and
      repository validators fail, the branch validator passes, and the
      branch combobox agrees with the field. */
  lemma InitialState()
    ensures !Initial.nameTouched && Initial.repoValue == Initial.fields.repo
    ensures Initial.branchValue == Initial.fields.defaultBranch
    ensures ValidateName(Initial.fields.name).Some? && ValidateRepo(Initial.fields.repo).Some?
    ensures ValidateDefaultBranch(Initial.fields.defaultBranch).None?
  {
  }

  /** Choosing a repository or a branch never leaves an empty default branch
      behind, so the branch validator passes afterwards. */
  lemma ChoicesSatisfyBranchValidator(st: State, repos: Option<seq<RepoItem>>, e: Event)
    requires e.ChooseRepo? || e.ChooseBranch?
    ensures ValidateDefaultBranch(Update(st, repos, e).fields.defaultBranch) == None
  {
  }
}
