/** What the two creation forms share: the branch a selection falls back to,
    and the shape of every field validator, which rejects a falsy (empty)
    value with the field's message. */
module FormRules {
  import opened Wrappers

  /** The branch used when nothing better is known. */
  const FallbackBranch: string := "main"

  /** `!value ? message : undefined`. */
  function Required(value: string, message: string): (err: Option<string>)
    ensures err.Some? <==> value == ""
    ensures err.Some? ==> err.value == message
  {
    if value == "" then Some(message) else None
  }
}
