/** The request and response interceptors (src/services/interceptors/request.ts
 *  and response.ts) over the state they share: the pending-request registry,
 *  the loading store and the user store's token. */
module Interceptors {
  import opened Wrappers
  import opened Axios
  import opened Cancel
  import opened Loading
  import opened ErrorHandler

  /** Why a call was rejected: an envelope with a non-success code, or an axios error. */
  datatype Reason = BusinessFailure(envelope: Envelope) | TransportFailure(error: AxiosError)

  /** How an interceptor settles the caller's promise. */
  datatype Outcome = Resolved(data: string) | Rejected(reason: Reason)

  /** What the transport reports for a request that was not aborted. */
  datatype Transport =
    | Answered(body: Envelope)
    | HttpFailure(status: int, message: string)
    | NoResponse(message: string)

  /** `(config as any).showLoading !== false`. */
  predicate ShowsLoading(config: RequestConfig) {
    config.showLoading != Some(false)
  }

  /** `(config as any)?.showError !== false`; a missing config counts as shown. */
  predicate ShowsError(config: Option<RequestConfig>) {
    config.None? || config.value.showError != Some(false)
  }

  /** `error.config?.url`. */
  function UrlOf(config: Option<RequestConfig>): Option<string> {
    if config.Some? then config.value.url else None
  }

  predicate IsSuccessCode(code: int) {
    code == 200 || code == 0
  }

  /** The headers after the token step. */
  function Authorized(headers: Option<map<string, string>>, token: string): Option<map<string, string>> {
    if token != "" && headers.Some? then Some(headers.value["Authorization" := "Bearer " + token]) else headers
  }

  /** The Authorization header is set to 'Bearer ' + token exactly when there
   *  is a token and there are headers; otherwise nothing changes. */
  lemma AuthorizedIff(headers: Option<map<string, string>>, token: string)
    ensures Authorized(headers, token) != headers ==> token != "" && headers.Some?
    ensures token != "" && headers.Some? ==>
              Authorized(headers, token).Some? &&
              Authorized(headers, token).value == headers.value["Authorization" := "Bearer " + token]
    ensures token == "" || headers.None? ==> Authorized(headers, token) == headers
  {
  }

  /** The effect of the response error handler, branch by branch. */
  function ErrorEffect(error: AxiosError): Effect {
    if error.code == Some(ErrCanceled) then NoEffect
    else if error.status.None? then HandleNetworkError(error.message)
    else if ShowsError(error.config) then HandleHttpError(error.status.value, Some(error.message), UrlOf(error.config))
    else NoEffect
  }

  /** A cancelled request is never reported, whether or not a response exists;
   *  a request with no response is always reported, whatever `showError` says;
   *  with a response, only when `showError` is not false. */
  lemma ErrorEffectCases(error: AxiosError)
    ensures error.code == Some("ERR_CANCELED") ==> ErrorEffect(error) == NoEffect
    ensures error.code != Some("ERR_CANCELED") && error.status.None? ==> ErrorEffect(error).toast.Some?
    ensures error.code != Some("ERR_CANCELED") && error.status.Some? && !IsInWhiteList(UrlOf(error.config)) ==>
              (ErrorEffect(error).toast.Some? <==> ShowsError(error.config))
    ensures ErrorEffect(error).clearToken ==>
              error.status == Some(401) && ShowsError(error.config) && !IsInWhiteList(UrlOf(error.config))
  {
  }

  /** The effect of the response success handler. */
  function EnvelopeEffect(response: Response): Effect {
    if IsSuccessCode(response.body.code) then NoEffect
    else if ShowsError(Some(response.config)) then
      HandleBusinessError(response.body.code, response.body.message, response.config.url)
    else NoEffect
  }

  /** A success code is never reported; another code is reported only with
   *  `showError` not false. */
  lemma EnvelopeEffectCases(response: Response)
    ensures IsSuccessCode(response.body.code) ==> EnvelopeEffect(response) == NoEffect
    ensures !ShowsError(Some(response.config)) ==> EnvelopeEffect(response) == NoEffect
    ensures EnvelopeEffect(response).clearToken <==>
              response.body.code == 401 && ShowsError(Some(response.config)) && !IsInWhiteList(response.config.url)
  {
  }

  /** The token after an effect is applied. */
  function TokenAfter(token: string, e: Effect): string {
    if e.clearToken then "" else token
  }

  /** The request's own signal has been aborted. */
  predicate IsAborted(config: RequestConfig)
    reads config, if config.signal.Some? then {config.signal.value} else {}
  {
    config.signal.Some? && config.signal.value.aborted
  }

  /** The effect of settling a request that was not aborted. */
  function TransportEffect(config: RequestConfig, transport: Transport): Effect {
    match transport
    case Answered(body) => EnvelopeEffect(Response(config, body))
    case HttpFailure(status, message) => ErrorEffect(AxiosError(None, message, Some(config), Some(status)))
    case NoResponse(message) => ErrorEffect(AxiosError(None, message, Some(config), None))
  }

  /** The error axios rejects an aborted request with. */
  function CanceledError(config: RequestConfig): AxiosError {
    AxiosError(Some(ErrCanceled), "canceled", Some(config), None)
  }

  /** How the caller's promise settles for a request that was not aborted. */
  function TransportOutcome(config: RequestConfig, transport: Transport): Outcome {
    match transport
    case Answered(body) => if IsSuccessCode(body.code) then Resolved(body.data) else Rejected(BusinessFailure(body))
    case HttpFailure(status, message) => Rejected(TransportFailure(AxiosError(None, message, Some(config), Some(status))))
    case NoResponse(message) => Rejected(TransportFailure(AxiosError(None, message, Some(config), None)))
  }

  /** Only an answered request with code 200 or 0 resolves, and then with the
   *  envelope's data; a failure is rejected with the axios error carrying its
   *  status and message. */
  lemma TransportOutcomeCases(config: RequestConfig, transport: Transport)
    ensures TransportOutcome(config, transport).Resolved? <==> transport.Answered? && IsSuccessCode(transport.body.code)
    ensures TransportOutcome(config, transport).Resolved? ==> TransportOutcome(config, transport).data == transport.body.data
    ensures transport.Answered? && !IsSuccessCode(transport.body.code) ==>
              TransportOutcome(config, transport) == Rejected(BusinessFailure(transport.body))
    ensures !transport.Answered? ==>
              var r := TransportOutcome(config, transport).reason;
              r.TransportFailure? && r.error.code.None? && r.error.config == Some(config) &&
              r.error.message == transport.message &&
              (r.error.status.Some? <==> transport.HttpFailure?) &&
              (transport.HttpFailure? ==> r.error.status.value == transport.status)
  {
  }

  /** Without a response the report is the network text, whatever the config says. */
  lemma NoResponseEffect(config: RequestConfig, message: string)
    ensures TransportEffect(config, NoResponse(message)) == HandleNetworkError(message)
  {
  }

  class Pipeline {
    const cancel: CancelRequest
    const loading: LoadingStore
    /** The user store's token; "" when there is none. */
    var token: string

    constructor (token: string)
      ensures cancel.Valid() && fresh(cancel) && fresh(loading)
      ensures cancel.pending == map[] && loading.State() == Initial && this.token == token
    {
      cancel := new CancelRequest();
      loading := new LoadingStore();
      this.token := token;
    }

    /** `requestInterceptorFulfilled`: attach the token, register the request
     *  (aborting an older one with the same key), show the loader unless the
     *  call opted out, and hand back the same config. */
    method RequestFulfilled(config: RequestConfig) returns (r: RequestConfig)
      requires cancel.Valid()
      modifies config`headers, config`signal, cancel, cancel.Slot(KeyOf(config)), loading
      ensures cancel.Valid() && r == config && token == old(token)
      ensures config.headers == Authorized(old(config.headers), token)
      ensures config.signal.Some? && fresh(config.signal.value) && !config.signal.value.aborted
      ensures cancel.pending == old(cancel.pending)[KeyOf(config) := config.signal.value]
      ensures KeyOf(config) in old(cancel.pending) ==> old(cancel.pending)[KeyOf(config)].aborted
      ensures loading.State() == if ShowsLoading(config) then Apply(old(loading.State()), ShowOp)
                                 else old(loading.State())
    {
      var t := token;
      if t != "" && config.headers.Some? {
        config.headers := Some(config.headers.value["Authorization" := "Bearer " + t]);
      }
      cancel.AddPending(config);
      if ShowsLoading(config) {
        loading.Show();
      }
      r := config;
    }

    /** `requestInterceptorRejected`: hide the loader once and reject. */
    method RequestRejected(error: AxiosError) returns (outcome: Outcome)
      modifies loading
      ensures outcome == Rejected(TransportFailure(error))
      ensures loading.State() == Apply(old(loading.State()), HideOp)
      ensures cancel.pending == old(cancel.pending)
    {
      loading.Hide();
      outcome := Rejected(TransportFailure(error));
    }

    /** `responseInterceptorFulfilled`: release the request, hide the loader
     *  once, then unwrap a success envelope or reject with the envelope. */
    method ResponseFulfilled(response: Response) returns (outcome: Outcome, effect: Effect)
      requires cancel.Valid()
      modifies this, cancel, cancel.Slot(KeyOf(response.config)), loading
      ensures cancel.Valid()
      ensures cancel.pending == old(cancel.pending) - {KeyOf(response.config)}
      ensures KeyOf(response.config) in old(cancel.pending) ==> old(cancel.pending)[KeyOf(response.config)].aborted
      ensures loading.State() == Apply(old(loading.State()), HideOp)
      ensures outcome == if IsSuccessCode(response.body.code) then Resolved(response.body.data)
                         else Rejected(BusinessFailure(response.body))
      ensures effect == EnvelopeEffect(response)
      ensures token == TokenAfter(old(token), effect)
    {
      cancel.RemovePending(response.config);
      ghost var released := cancel.pending;
      loading.Hide();
      assert cancel.pending == released && cancel.Valid();
      var body := response.body;
      effect := NoEffect;
      if body.code == 200 || body.code == 0 {
        outcome := Resolved(body.data);
      } else {
        var showError := response.config.showError != Some(false);
        if showError {
          effect := HandleBusinessError(body.code, body.message, response.config.url);
          if effect.clearToken {
            token := "";
          }
        }
        outcome := Rejected(BusinessFailure(body));
      }
    }

    /** `responseInterceptorRejected`: hide the loader once on every path and
     *  reject; cancellations are silent, missing responses always reported,
     *  HTTP errors reported unless `showError` is false. The registry is not
     *  touched. */
    method ResponseRejected(error: AxiosError) returns (outcome: Outcome, effect: Effect)
      modifies this, loading
      ensures outcome == Rejected(TransportFailure(error))
      ensures loading.State() == Apply(old(loading.State()), HideOp)
      ensures cancel.pending == old(cancel.pending)
      ensures effect == ErrorEffect(error)
      ensures token == TokenAfter(old(token), effect)
    {
      loading.Hide();
      outcome := Rejected(TransportFailure(error));
      if error.code == Some(ErrCanceled) {
        return outcome, NoEffect;
      }
      if error.status.None? {
        return outcome, HandleNetworkError(error.message);
      }
      var status := error.status.value;
      var showError := error.config.None? || error.config.value.showError != Some(false);
      effect := NoEffect;
      if showError {
        effect := HandleHttpError(status, Some(error.message), UrlOf(error.config));
        if effect.clearToken {
          token := "";
        }
      }
    }

    /** One dispatched request settling: axios rejects a request whose signal
     *  was aborted with ERR_CANCELED; otherwise the transport's report goes to
     *  the matching response handler. */
    method Settle(config: RequestConfig, transport: Transport) returns (outcome: Outcome, effect: Effect)
      requires cancel.Valid()
      modifies this, cancel, cancel.Slot(KeyOf(config)), loading
      ensures cancel.Valid()
      ensures loading.State() == Apply(old(loading.State()), HideOp)
      ensures old(IsAborted(config)) ==> effect == NoEffect && outcome == Rejected(TransportFailure(CanceledError(config)))
      ensures !old(IsAborted(config)) ==> effect == TransportEffect(config, transport)
      ensures !old(IsAborted(config)) ==> outcome == TransportOutcome(config, transport)
      ensures if !old(IsAborted(config)) && transport.Answered?
              then cancel.pending == old(cancel.pending) - {KeyOf(config)}
              else cancel.pending == old(cancel.pending)
      ensures !old(IsAborted(config)) && transport.Answered? && KeyOf(config) in old(cancel.pending) ==>
                old(cancel.pending)[KeyOf(config)].aborted
      ensures token == TokenAfter(old(token), effect)
    {
      if IsAborted(config) {
        outcome, effect := ResponseRejected(CanceledError(config));
      } else {
        match transport
        case Answered(body) =>
          outcome, effect := ResponseFulfilled(Response(config, body));
        case HttpFailure(status, message) =>
          outcome, effect := ResponseRejected(AxiosError(None, message, Some(config), Some(status)));
        case NoResponse(message) =>
          outcome, effect := ResponseRejected(AxiosError(None, message, Some(config), None));
      }
    }

    /** A whole call, dispatched and settled without interference. A default
     *  call nets one show and one hide; a `showLoading: false` call nets one
     *  hide and no show. Only an answered call leaves the registry without its key. */
    method Request(config: RequestConfig, transport: Transport) returns (outcome: Outcome, effect: Effect)
      requires cancel.Valid()
      modifies this, config`headers, config`signal, cancel, cancel.Slot(KeyOf(config)), loading
      ensures cancel.Valid()
      ensures config.headers == Authorized(old(config.headers), old(token))
      ensures loading.State() == Apply(if ShowsLoading(config) then Apply(old(loading.State()), ShowOp)
                                       else old(loading.State()), HideOp)
      ensures loading.count == old(loading.count) + (if ShowsLoading(config) then 0 else -1)
      ensures config.signal.Some? && fresh(config.signal.value)
      ensures KeyOf(config) in old(cancel.pending) ==> old(cancel.pending)[KeyOf(config)].aborted
      ensures transport.Answered? ==>
                cancel.pending == old(cancel.pending) - {KeyOf(config)} && config.signal.value.aborted
      ensures !transport.Answered? ==>
                cancel.pending == old(cancel.pending)[KeyOf(config) := config.signal.value] &&
                !config.signal.value.aborted
      ensures outcome == TransportOutcome(config, transport)
      ensures effect == TransportEffect(config, transport)
      ensures token == TokenAfter(old(token), effect)
    {
      var _ := RequestFulfilled(config);
      outcome, effect := Settle(config, transport);
    }

    /** Two calls with equal keys dispatched one after the other: the
     *  second registration aborts the first call's controller and takes its
     *  place under the shared key. */
    method DispatchTwice(first: RequestConfig, second: RequestConfig)
      requires cancel.Valid() && first != second && KeyOf(first) == KeyOf(second)
      modifies first`headers, first`signal, second`headers, second`signal
      modifies cancel, cancel.Slot(KeyOf(first)), loading
      ensures cancel.Valid()
      ensures first.headers == Authorized(old(first.headers), token)
      ensures second.headers == Authorized(old(second.headers), token)
      ensures first.signal.Some? && fresh(first.signal.value) && first.signal.value.aborted
      ensures second.signal.Some? && fresh(second.signal.value) && !second.signal.value.aborted
      ensures cancel.pending == old(cancel.pending)[KeyOf(first) := second.signal.value]
      ensures KeyOf(first) in old(cancel.pending) ==> old(cancel.pending)[KeyOf(first)].aborted
      ensures loading.count == old(loading.count) + (if ShowsLoading(first) then 1 else 0)
                                                   + (if ShowsLoading(second) then 1 else 0)
    {
      var _ := RequestFulfilled(first);
      var _ := RequestFulfilled(second);
    }

    /** Two calls with equal keys, the second dispatched before axios has
     *  taken the first's response: the first is aborted and settles as a
     *  silent cancellation, whatever its transport reported, and only the
     *  second stays registered. */
    method Supersede(first: RequestConfig, second: RequestConfig, transport: Transport)
      returns (outcome: Outcome, effect: Effect)
      requires cancel.Valid() && first != second && KeyOf(first) == KeyOf(second)
      modifies this, first`headers, first`signal, second`headers, second`signal
      modifies cancel, cancel.Slot(KeyOf(first)), loading
      ensures cancel.Valid()
      ensures outcome == Rejected(TransportFailure(CanceledError(first))) && effect == NoEffect
      ensures first.signal.Some? && first.signal.value.aborted
      ensures second.signal.Some? && !second.signal.value.aborted
      ensures cancel.pending == old(cancel.pending)[KeyOf(first) := second.signal.value]
      ensures cancel.GetPendingCount() == old(cancel.GetPendingCount()) + (if KeyOf(first) in old(cancel.pending) then 0 else 1)
    {
      DispatchTwice(first, second);
      outcome, effect := Settle(first, transport);
    }

    /** Two calls with equal keys where the first's response was taken before
     *  the second was dispatched, and reaches the success handler after it:
     *  releasing the shared key aborts the second call's controller, and the
     *  registry no longer holds the key. */
    method LateResponse(first: RequestConfig, second: RequestConfig, body: Envelope)
      returns (outcome: Outcome, effect: Effect)
      requires cancel.Valid() && first != second && KeyOf(first) == KeyOf(second)
      modifies this, first`headers, first`signal, second`headers, second`signal
      modifies cancel, cancel.Slot(KeyOf(first)), loading
      ensures cancel.Valid()
      ensures second.signal.Some? && second.signal.value.aborted
      ensures cancel.pending == old(cancel.pending) - {KeyOf(first)}
      ensures outcome == TransportOutcome(first, Answered(body))
    {
      DispatchTwice(first, second);
      outcome, effect := ResponseFulfilled(Response(first, body));
    }
  }
}
