/** The create-session form as a state machine: the local combobox values
    and the two form fields, updated by the selection and typing handlers. */
module SessionForm {
  import opened Wrappers
  import opened Text
  import opened FormRules

  datatype Fields = Fields(repo: string, branch: string)

  datatype State = State(repoValue: string, branchValue: string, fields: Fields)

  const Initial: State := State("", FallbackBranch, Fields("", FallbackBranch))

  /** Picking a repository: both the combobox and the field take the value,
      and the branch goes back to "main" in both. */
  function SelectRepo(st: State, value: string): (next: State)
    ensures next.repoValue == value && next.fields.repo == value
    ensures next.branchValue == FallbackBranch && next.fields.branch == FallbackBranch
  {
    var repo := OrElse(value, "");
    State(repo, FallbackBranch, Fields(repo, FallbackBranch))
  }

  /** Picking a branch; an empty pick means "main". */
  function SelectBranch(st: State, value: string): (next: State)
    ensures next.branchValue == next.fields.branch && next.fields.branch != ""
    ensures value != "" ==> next.fields.branch == value
    ensures value == "" ==> next.fields.branch == FallbackBranch
    ensures next.repoValue == st.repoValue && next.fields.repo == st.fields.repo
  {
    var branch := OrElse(value, FallbackBranch);
    st.(branchValue := branch, fields := st.fields.(branch := branch))
  }

  /** Typing in the plain repository input (shown when no user is signed in). */
  function EditRepo(st: State, text: string): State {
    st.(fields := st.fields.(repo := text))
  }

  /** Typing in the plain branch input. */
  function EditBranch(st: State, text: string): State {
    st.(fields := st.fields.(branch := text))
  }

  /** The field validators. */
  function ValidateRepo(value: string): Option<string> {
    Required(value, "Repository is required")
  }

  function ValidateBranch(value: string): Option<string> {
    Required(value, "Branch is required")
  }

  datatype Event =
    | ChooseRepo(value: string)
    | ChooseBranch(value: string)
    | TypeRepo(text: string)
    | TypeBranch(text: string)

  function Update(st: State, e: Event): State {
    match e
    case ChooseRepo(v) => SelectRepo(st, v)
    case ChooseBranch(v) => SelectBranch(st, v)
    case TypeRepo(t) => EditRepo(st, t)
    case TypeBranch(t) => EditBranch(st, t)
  }

  /** The form after a sequence of user actions. */
  function Run(st: State, events: seq<Event>): State
    decreases |events|
  {
    if |events| == 0 then st else Run(Update(st, events[0]), events[1..])
  }

  /** The branch combobox never shows an empty value: it starts at "main" and
      every action keeps it non-empty. */
  lemma {:induction false} BranchComboboxNeverEmpty(st: State, events: seq<Event>)
    requires st.branchValue != ""
    ensures Run(st, events).branchValue != ""
    decreases |events|
  {
    if |events| > 0 {
      BranchComboboxNeverEmpty(Update(st, events[0]), events[1..]);
    }
  }

  /** Without typed input, the combobox and the fields agree after any
      sequence of choices, and the branch validator passes. */
  lemma {:induction false} ChoicesKeepFieldsInSync(st: State, events: seq<Event>)
    requires st.repoValue == st.fields.repo && st.branchValue == st.fields.branch && st.branchValue != ""
    requires forall i :: 0 <= i < |events| ==> events[i].ChooseRepo? || events[i].ChooseBranch?
    ensures var end := Run(st, events);
      end.repoValue == end.fields.repo && end.branchValue == end.fields.branch
      && ValidateBranch(end.fields.branch) == None
    decreases |events|
  {
    if |events| > 0 {
      ChoicesKeepFieldsInSync(Update(st, events[0]), events[1..]);
    }
  }

  /** A branch picked before the repository is lost: choosing the repository
      resets it. */
  lemma RepoChoiceDiscardsBranch(st: State, branch: string, repo: string)
    ensures SelectRepo(SelectBranch(st, branch), repo).fields.branch == FallbackBranch
  {
  }

  lemma InitialSatisfiesSync()
    ensures Initial.repoValue == Initial.fields.repo && Initial.branchValue == Initial.fields.branch
    ensures ValidateRepo(Initial.fields.repo).Some? && ValidateBranch(Initial.fields.branch).None?
  {
  }
}
