/**
 * The `RepoAnalyzer` component's state: the URL being edited, the analysis data,
 * the loading flag, the error shown, and the index of the status message shown
 * while loading. React state setters are field assignments; the reply of the
 * backend call is a parameter.
 */
module Analyzer {
  import opened Wrappers
  import opened JsonValue
  import opened JsValues

  /** The status messages cycled through while loading. */
  const LoadingMessages: seq<string> := [
    "Gathering data from GitHub, please wait...",
    "Fetching repository details...",
    "Processing contributors and commits...",
    "Crunching the numbers...",
    "Almost there, analyzing the repo..."
  ]

  /** The message stored when the backend cannot be reached or its reply is not usable. */
  const ConnectFailedMessage: string := "Failed to connect to server or invalid response."

  /** The state updater the loading timer applies on every tick. */
  function TickStep(prev: int): (next: int)
    ensures 0 <= prev < |LoadingMessages| ==> 0 <= next < |LoadingMessages|
    ensures prev <= next <= prev + 1
    ensures next == prev <==> prev >= |LoadingMessages| - 1
  {
    if prev < |LoadingMessages| - 1 then prev + 1 else prev
  }

  /** The message index after `k` ticks since loading began (the index starts at 0). */
  function IndexAfterTicks(k: nat): (i: int)
    ensures 0 <= i < |LoadingMessages|
    ensures i <= k
  {
    if k == 0 then 0 else TickStep(IndexAfterTicks(k - 1))
  }

  /** After `k` ticks the index is `min(k, 4)`: it climbs by one and stops at the last message. */
  lemma {:induction false} TicksSaturate(k: nat)
    ensures IndexAfterTicks(k) == Min(k, |LoadingMessages| - 1)
    ensures 0 <= IndexAfterTicks(k) < |LoadingMessages|
  {
    if k > 0 {
      TicksSaturate(k - 1);
    }
  }

  /** What the backend call ends with: a decoded JSON body, or a rejected `fetch` or `response.json()`. */
  datatype ServerReply = Received(data: Json) | Unreachable

  /** The `error` and `repoData` state that `handleAnalyze` leaves behind. */
  datatype Outcome = Outcome(error: Json, repoData: Option<Json>)

  /**
   * The `try`/`catch` of `handleAnalyze`: a truthy `data.error` is stored verbatim,
   * any other reply is stored as the analysis data, and a failed call (or reading
   * `error` of a null body, which throws) stores the fixed connection message.
   */
  function AnalyzeOutcome(reply: ServerReply): (o: Outcome)
    ensures JsTruthy(Some(o.error)) <==> o.repoData.None?
    ensures o.repoData.Some? ==> reply == Received(o.repoData.value) && o.error == JStr("")
    ensures reply.Received? && !reply.data.JNull? && JsTruthy(Prop(reply.data, "error"))
            ==> o == Outcome(Prop(reply.data, "error").value, None)
    ensures reply.Received? && !reply.data.JNull? && !JsTruthy(Prop(reply.data, "error"))
            ==> o == Outcome(JStr(""), Some(reply.data))
    ensures reply.Unreachable? || reply == Received(JNull) ==> o == Outcome(JStr(ConnectFailedMessage), None)
  {
    match reply
    case Unreachable => Outcome(JStr(ConnectFailedMessage), None)
    case Received(data) =>
      if data.JNull? then Outcome(JStr(ConnectFailedMessage), None)
      else
        var error := Prop(data, "error");
        if JsTruthy(error) then Outcome(error.value, None) else Outcome(JStr(""), Some(data))
  }

  class RepoAnalyzer {
    var url: string
    var repoData: Option<Json>
    var loading: bool
    var error: Json
    var loadingMsgIndex: int

    /** The status-message index always names one of the loading messages. */
    predicate Valid()
      reads this
    {
      0 <= loadingMsgIndex < |LoadingMessages|
    }

    /** The initial state of the component. */
    constructor ()
      ensures Valid()
      ensures url == "" && repoData == None && !loading && error == JStr("") && loadingMsgIndex == 0
    {
      url := "";
      repoData := None;
      loading := false;
      error := JStr("");
      loadingMsgIndex := 0;
    }

    /** The message shown under the spinner. */
    function StatusMessage(): (m: string)
      reads this
      requires Valid()
      ensures m in LoadingMessages
    {
      LoadingMessages[loadingMsgIndex]
    }

    /** Typing into the URL field. */
    method SetUrl(text: string)
      modifies this`url
      ensures url == text
    {
      url := text;
    }

    /** The effect run when `loading` changes: entering loading restarts the messages at 0. */
    method LoadingChanged()
      modifies this`loadingMsgIndex
      requires Valid()
      ensures Valid()
      ensures loading ==> loadingMsgIndex == 0
      ensures !loading ==> loadingMsgIndex == old(loadingMsgIndex)
    {
      if loading {
        loadingMsgIndex := 0;
      }
    }

    /** One firing of the 1800 ms interval. */
    method Tick()
      modifies this`loadingMsgIndex
      requires Valid()
      ensures Valid()
      ensures loadingMsgIndex == TickStep(old(loadingMsgIndex))
    {
      loadingMsgIndex := TickStep(loadingMsgIndex);
    }

    /** The first three setters of `handleAnalyze`, before the request is awaited. */
    method BeginAnalyze()
      modifies this`loading, this`error, this`repoData
      ensures loading && error == JStr("") && repoData == None
    {
      loading := true;
      error := JStr("");
      repoData := None;
    }

    /** The rest of `handleAnalyze`, once the request has settled. */
    method FinishAnalyze(reply: ServerReply)
      modifies this`loading, this`error, this`repoData
      requires error == JStr("") && repoData == None
      ensures !loading
      ensures Outcome(error, repoData) == AnalyzeOutcome(reply)
    {
      match reply {
        case Unreachable =>
          error := JStr(ConnectFailedMessage);
        case Received(data) =>
          if data.JNull? {
            error := JStr(ConnectFailedMessage);
          } else {
            var e := Prop(data, "error");
            if JsTruthy(e) {
              error := e.value;
            } else {
              repoData := Some(data);
            }
          }
      }
      loading := false;
    }

    /** `handleAnalyze`: clear the previous result, await the reply, store its outcome. */
    method HandleAnalyze(reply: ServerReply)
      modifies this`loading, this`error, this`repoData
      ensures !loading
      ensures Outcome(error, repoData) == AnalyzeOutcome(reply)
    {
      BeginAnalyze();
      FinishAnalyze(reply);
    }
  }
}
