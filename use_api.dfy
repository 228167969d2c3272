/** The `useApi` hook: the `{data, loading, error}` state `execute` moves
    through. `execute` first marks the request as loading, then settles with
    the call's outcome, which is a parameter here. */
module UseApi {
  import opened JsCore

  datatype ApiState<T> = ApiState(data: Option<T>, loading: bool, error: Option<string>)

  /** How the awaited call ended: with the response's data, or with an error
      carrying the server's `response.data.message` and the error's own
      `message` (None when absent). */
  datatype Outcome<T> = Succeeded(data: T) | Failed(serverMessage: Option<string>, message: Option<string>)

  const DefaultMessage := "Щось пішло не так"

  function InitialState<T>(): (s: ApiState<T>)
    ensures s.data.None? && !s.loading && s.error.None?
  {
    ApiState(None, false, None)
  }

  /** The first transition of `execute`. */
  function Started<T>(s: ApiState<T>): (r: ApiState<T>)
    ensures r.loading && r.error.None? && r.data == s.data
  {
    s.(loading := true, error := None)
  }

  /** The error text: the server's message, else the error's message, else the
      default; an empty message counts as absent. */
  function ErrorMessage(serverMessage: Option<string>, message: Option<string>): (r: string)
    ensures Truthy(serverMessage) ==> r == serverMessage.value
    ensures !Truthy(serverMessage) && Truthy(message) ==> r == message.value
    ensures !Truthy(serverMessage) && !Truthy(message) ==> r == DefaultMessage
  {
    if Truthy(serverMessage) then serverMessage.value
    else if Truthy(message) then message.value
    else DefaultMessage
  }

  /** The second transition of `execute`: the previous state is replaced. */
  function Finished<T>(o: Outcome<T>): ApiState<T> {
    match o
    case Succeeded(d) => ApiState(Some(d), false, None)
    case Failed(server, message) => ApiState(None, false, Some(ErrorMessage(server, message)))
  }

  /** Both terminal states have stopped loading; a success carries its data
      and no error, a failure no data and a non-empty error message, and the
      previous state leaves no trace. */
  lemma ExecuteSettles<T>(s: ApiState<T>, o: Outcome<T>)
    ensures var r := Finished(o);
      && !r.loading
      && (o.Succeeded? ==> r.data == Some(o.data) && r.error.None?)
      && (o.Failed? ==> r.data.None? && r.error.Some? && r.error.value != "")
      && (r.error.Some? <==> o.Failed?)
  {
  }

  class ApiHook<T> {
    var data: Option<T>
    var loading: bool
    var error: Option<string>

    function View(): ApiState<T>
      reads this
    {
      ApiState(data, loading, error)
    }

    constructor ()
      ensures View() == InitialState()
    {
      data, loading, error := None, false, None;
    }

    /** `execute` up to the awaited call. */
    method Begin()
      modifies this
      ensures View() == Started(old(View()))
    {
      loading, error := true, None;
    }

    /** `execute` after the call settled with `o`. */
    method Complete(o: Outcome<T>)
      modifies this
      ensures View() == Finished(o)
    {
      match o
      case Succeeded(d) =>
        data, loading, error := Some(d), false, None;
      case Failed(server, message) =>
        var errorMessage := DefaultMessage;
        if Truthy(server) {
          errorMessage := server.value;
        } else if Truthy(message) {
          errorMessage := message.value;
        }
        data, loading, error := None, false, Some(errorMessage);
    }
  }
}
