/**
 * The request hook: the data of the last successful call, whether a call is running, and
 * the message of the last failure. The call itself is outside the model; its outcome is
 * a parameter, and toasts are returned.
 */
module UseApi {
  import opened Wrappers
  import opened Toasts

  /** The hook's options; the defaults show no success toast and do show error toasts. */
  datatype Options = Options(showSuccessToast: bool, successMessage: string, showErrorToast: bool)

  const DefaultOptions := Options(false, "", true)

  const GenericError := "An unexpected error occurred"

  /** A rejected call: the message the server put in the response body, and the error's own message. */
  datatype ApiError = ApiError(responseMessage: Option<string>, message: Option<string>)

  /** JavaScript's `a || b` on an optional string: the empty string counts as missing too. */
  function OrElse(a: Option<string>, b: string): (r: string)
    ensures a.Some? && a.value != "" ==> r == a.value
    ensures a.None? || a.value == "" ==> r == b
  {
    if a.Some? && a.value != "" then a.value else b
  }

  /**
   * The failure message: the server's message when it gave a non-empty one, else the
   * error's own non-empty message, else the generic one. It is never empty.
   */
  function ErrorMessage(e: ApiError): (m: string)
    ensures m != ""
    ensures m == GenericError || Some(m) == e.responseMessage || Some(m) == e.message
    ensures e.responseMessage.Some? && e.responseMessage.value != "" ==> m == e.responseMessage.value
    ensures (e.responseMessage.None? || e.responseMessage.value == "") && e.message.Some? && e.message.value != "" ==>
      m == e.message.value
  {
    OrElse(e.responseMessage, OrElse(e.message, GenericError))
  }

  /** The success toast's text: the configured message, or a stock one when that is empty. */
  function SuccessMessage(o: Options): (m: string)
    ensures m != ""
    ensures o.successMessage != "" ==> m == o.successMessage
  {
    if o.successMessage != "" then o.successMessage else "Operation successful"
  }

  class Request<T> {
    var data: Option<T>
    var loading: bool
    var error: Option<string>

    constructor ()
      ensures data.None? && !loading && error.None?
      ensures Valid()
    {
      data, loading, error := None, false, None;
    }

    /** A running call has no error recorded, and a recorded error is never empty. */
    predicate Valid()
      reads this
    {
      (loading ==> error.None?) && (error.Some? ==> error.value != "")
    }

    /** `reset`: back to no data, not loading and no error. */
    method Reset()
      modifies this
      ensures data.None? && !loading && error.None?
      ensures Valid()
    {
      data := None;
      loading := false;
      error := None;
    }

    /** The start of `execute`: loading, the previous error cleared, the data kept. */
    method Begin()
      modifies this
      ensures loading && error.None? && data == old(data)
      ensures Valid()
    {
      loading := true;
      error := None;
    }

    /**
     * The rest of `execute`, once the call has settled. Success stores and returns the
     * response; failure records the message and returns nothing, keeping the old data.
     * Loading ends either way, and each toast is raised only when its option asks for it.
     */
    method Settle(outcome: Result<T, ApiError>, options: Options) returns (r: Option<T>, toast: Option<Toast>)
      requires Valid() && loading
      modifies this
      ensures !loading && Valid()
      ensures outcome.Success? ==>
        data == Some(outcome.value) && error.None? && r == Some(outcome.value)
        && toast == (if options.showSuccessToast then Some(SuccessToast(SuccessMessage(options))) else None)
      ensures outcome.Failure? ==>
        data == old(data) && error == Some(ErrorMessage(outcome.error)) && r.None?
        && toast == (if options.showErrorToast then Some(ErrorToast(ErrorMessage(outcome.error))) else None)
    {
      toast := None;
      match outcome {
        case Success(response) =>
          data := Some(response);
          if options.showSuccessToast {
            toast := Some(SuccessToast(SuccessMessage(options)));
          }
          r := Some(response);
        case Failure(err) =>
          var message := ErrorMessage(err);
          error := Some(message);
          if options.showErrorToast {
            toast := Some(ErrorToast(message));
          }
          r := None;
      }
      loading := false;
    }

    /** `execute`: `Begin`, then `Settle` with the call's outcome. */
    method Execute(outcome: Result<T, ApiError>, options: Options) returns (r: Option<T>, toast: Option<Toast>)
      modifies this
      ensures !loading && Valid()
      ensures outcome.Success? ==>
        data == Some(outcome.value) && error.None? && r == Some(outcome.value)
        && toast == (if options.showSuccessToast then Some(SuccessToast(SuccessMessage(options))) else None)
      ensures outcome.Failure? ==>
        data == old(data) && error == Some(ErrorMessage(outcome.error)) && r.None?
        && toast == (if options.showErrorToast then Some(ErrorToast(ErrorMessage(outcome.error))) else None)
    {
      Begin();
      r, toast := Settle(outcome, options);
    }
  }
}
