/** The shapes of axios and of the browser's AbortController that the
 *  interceptors read and write. Only the fields the core touches are kept. */
module Axios {
  import opened Wrappers

  /** An AbortController; `abort()` is idempotent. */
  class Controller {
    var aborted: bool

    constructor ()
      ensures !aborted
    {
      aborted := false;
    }

    method Abort()
      modifies this
      ensures aborted
    {
      aborted := true;
    }
  }

  /** A request config as the interceptors receive it. The four fields (the HTTP method is `verb`) the
   *  request key is built from are fixed once axios hands the config over;
   *  `params` and `data` are held as their JSON text, `None` standing for
   *  `undefined` (whose `JSON.stringify` is `undefined`). `showLoading` and
   *  `showError` are the per-call options, `None` when the caller left them out. */
  class RequestConfig {
    const verb: string
    const url: Option<string>
    const params: Option<string>
    const data: Option<string>
    const showLoading: Option<bool>
    const showError: Option<bool>
    var headers: Option<map<string, string>>
    var signal: Option<Controller>

    constructor (verb: string, url: Option<string>, params: Option<string>, data: Option<string>,
                 showLoading: Option<bool>, showError: Option<bool>, headers: Option<map<string, string>>)
      ensures this.verb == verb && this.url == url && this.params == params && this.data == data
      ensures this.showLoading == showLoading && this.showError == showError
      ensures this.headers == headers && signal == None
    {
      this.verb, this.url, this.params, this.data := verb, url, params, data;
      this.showLoading, this.showError := showLoading, showError;
      this.headers, this.signal := headers, None;
    }
  }

  /** The `{code, data, message}` body every response carries; `data` is held as its JSON text. */
  datatype Envelope = Envelope(code: int, data: string, message: string)

  /** A response that reached the success handler: its config and its body. */
  datatype Response = Response(config: RequestConfig, body: Envelope)

  /** An AxiosError: its `code`, `message`, optional `config`, and the HTTP
   *  status of `error.response` (`None` when no response arrived). */
  datatype AxiosError = AxiosError(code: Option<string>, message: string, config: Option<RequestConfig>,
                                   status: Option<int>)

  /** The error code axios gives a request whose signal was aborted. */
  const ErrCanceled: string := "ERR_CANCELED"
}
