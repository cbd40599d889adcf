/** How `main` reports a failed Claude call: the exception's message is
    lowered and sorted into one of three kinds, credit problems first. */
module StoryErrors {
  import opened Text

  /** The three error screens `main` can show. */
  datatype ErrorKind = InsufficientCredits | InvalidApiKey | OtherApiError

  /** The lowered message points at missing credits. */
  predicate CreditsSignal(errorMsg: string) {
    Contains(errorMsg, "credit balance") || Contains(errorMsg, "400") || Contains(errorMsg, "billing")
  }

  /** The lowered message points at a bad API key. */
  predicate KeySignal(errorMsg: string) {
    Contains(errorMsg, "api key") || Contains(errorMsg, "authentication") || Contains(errorMsg, "401")
  }

  /** The `if`/`elif`/`else` on `str(e).lower()` in `main`. */
  function ClassifyError(message: string): (kind: ErrorKind)
    ensures kind == InsufficientCredits <==> CreditsSignal(Lower(message))
    ensures kind == InvalidApiKey <==> !CreditsSignal(Lower(message)) && KeySignal(Lower(message))
  {
    var errorMsg := Lower(message);
    if CreditsSignal(errorMsg) then InsufficientCredits
    else if KeySignal(errorMsg) then InvalidApiKey
    else OtherApiError
  }

  /** The message `generate_story_claude` raises for a failed request with
      status 400 or a "credit" mention. */
  function CreditsMessage(detail: string): string
  {
    "Insufficient credits or billing issue: " + detail
  }

  /** The message `generate_story_claude` raises on an authentication failure. */
  function AuthMessage(detail: string): string
  {
    "Authentication failed - invalid API key: " + detail
  }

  lemma LowerIdempotent(s: string)
    ensures Lower(Lower(s)) == Lower(s)
  {
  }

  /** Only the case of letters matters to the classifier. */
  lemma ClassifyIgnoresCase(message: string)
    ensures ClassifyError(Lower(message)) == ClassifyError(message)
  {
    LowerIdempotent(message);
  }

  /** A credits message is classified as a credits problem, whatever detail
      the exception carried. */
  lemma CreditsMessageClassified(detail: string)
    ensures ClassifyError(CreditsMessage(detail)) == InsufficientCredits
  {
    var a, b := "Insufficient credits or ", " issue: ";
    assert "Insufficient credits or billing issue: " == a + "billing" + b;
    LowerConcat(a + "billing" + b, detail);
    LowerConcat(a + "billing", b);
    LowerConcat(a, "billing");
    assert Lower("billing") == "billing";
    OccursMiddle(Lower(a), "billing", Lower(b));
    OccursExtend(Lower(a) + "billing" + Lower(b), Lower(detail), "billing", |a|);
  }

  /** The authentication message after its first word. */
  const AuthRest: string := " failed - invalid API key: "

  /** Lowering an authentication message lowers only its first word and
      the rest of its text. */
  lemma LowerAuthMessage(detail: string)
    ensures Lower(AuthMessage(detail)) == "authentication" + Lower(AuthRest) + Lower(detail)
  {
    assert "Authentication failed - invalid API key: " == "Authentication" + AuthRest;
    LowerConcat("Authentication" + AuthRest, detail);
    LowerConcat("Authentication", AuthRest);
    assert Lower("Authentication") == "authentication";
  }

  /** An authentication message is never shown as a generic API error: it
      lands on the API-key screen unless its detail also signals credits. */
  lemma AuthMessageNeverGeneric(detail: string)
    ensures ClassifyError(AuthMessage(detail)) != OtherApiError
  {
    var head := "authentication" + Lower(AuthRest);
    LowerAuthMessage(detail);
    OccursInFirst(head, "authentication", Lower(AuthRest), "authentication", 0);
    OccursInFirst(Lower(AuthMessage(detail)), head, Lower(detail), "authentication", 0);
    assert KeySignal(Lower(AuthMessage(detail)));
  }

  /** A message with signals of both kinds is a credits problem. */
  lemma CreditsBeforeKey(message: string)
    requires CreditsSignal(Lower(message)) && KeySignal(Lower(message))
    ensures ClassifyError(message) == InsufficientCredits
  {
  }
}
