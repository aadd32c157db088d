/** The error classifier (src/services/error-handler.ts). Each handler is a
 *  function returning the `Effect` the source performs: at most one toast,
 *  and for a 401 a token clear and a redirect to the login page 1500 ms later. */
module ErrorHandler {
  import opened Wrappers
  import opened Strings

  /** Urls whose errors are never shown. */
  const WhiteList: seq<string> := ["/api/login", "/api/refresh-token"]

  const LoginPath: string := "/login"
  const RedirectDelayMs: int := 1500

  const TextSessionExpired: string := "登录已过期，请重新登录"
  const TextBadRequest: string := "请求参数错误"
  const TextForbidden: string := "没有权限访问"
  const TextNotFound: string := "请求的资源不存在"
  const TextServerError: string := "服务器错误"
  const TextBadGateway: string := "网关错误"
  const TextUnavailable: string := "服务不可用"
  const TextGatewayTimeout: string := "网关超时"
  const TextRequestFailed: string := "请求失败"
  const TextNoPermission: string := "没有权限"
  const TextNetworkDown: string := "网络连接失败，请检查网络"
  const TextTimeout: string := "请求超时，请重试"
  const TextNetworkOther: string := "网络异常，请重试"

  datatype Redirect = Redirect(path: string, delayMs: int)

  /** What a handler does besides returning: the toast it shows, whether it
   *  clears the token, and the redirect it schedules. */
  datatype Effect = Effect(toast: Option<string>, clearToken: bool, redirect: Option<Redirect>)

  const NoEffect: Effect := Effect(None, false, None)

  /** The 401 handling shared by the HTTP and the business path. */
  const SessionExpired: Effect := Effect(Some(TextSessionExpired), true, Some(Redirect(LoginPath, RedirectDelayMs)))

  function Toast(text: string): Effect {
    Effect(Some(text), false, None)
  }

  /** JavaScript truthiness of an optional string. */
  predicate Truthy(s: Option<string>) {
    s.Some? && s.value != ""
  }

  /** `isInWhiteList(url)`: a non-empty url containing one of the listed paths. */
  function IsInWhiteList(url: Option<string>): (r: bool)
    ensures r <==> Truthy(url) && (Contains(url.value, "/api/login") || Contains(url.value, "/api/refresh-token"))
  {
    if !Truthy(url) then false
    else
      assert WhiteList == ["/api/login", "/api/refresh-token"];
      assert Contains(url.value, WhiteList[0]) == Contains(url.value, "/api/login");
      assert Contains(url.value, WhiteList[1]) == Contains(url.value, "/api/refresh-token");
      exists i | 0 <= i < |WhiteList| :: Contains(url.value, WhiteList[i])
  }

  /** `handleHttpError(status, message, url)`. */
  function HandleHttpError(status: int, message: Option<string>, url: Option<string>): (e: Effect)
    ensures IsInWhiteList(url) ==> e == NoEffect
    ensures !IsInWhiteList(url) ==> e.toast.Some?
    ensures e.clearToken <==> !IsInWhiteList(url) && status == 401
    ensures e.redirect == if e.clearToken then Some(Redirect("/login", 1500)) else None
    ensures !IsInWhiteList(url) && status !in {401, 403, 404, 500, 502, 503, 504} ==>
              e.toast == Some(if Truthy(message) then message.value
                              else if status == 400 then TextBadRequest else TextRequestFailed)
  {
    if IsInWhiteList(url) then NoEffect
    else
      match status
      case 400 => Toast(if Truthy(message) then message.value else TextBadRequest)
      case 401 => SessionExpired
      case 403 => Toast(TextForbidden)
      case 404 => Toast(TextNotFound)
      case 500 => Toast(TextServerError)
      case 502 => Toast(TextBadGateway)
      case 503 => Toast(TextUnavailable)
      case 504 => Toast(TextGatewayTimeout)
      case _ => Toast(if Truthy(message) then message.value else TextRequestFailed)
  }

  /** The fixed texts of the mapped statuses, shown whatever the caller's message. */
  lemma HttpStatusTexts(message: Option<string>, url: Option<string>)
    requires !IsInWhiteList(url)
    ensures HandleHttpError(401, message, url).toast == Some("登录已过期，请重新登录")
    ensures HandleHttpError(403, message, url).toast == Some("没有权限访问")
    ensures HandleHttpError(404, message, url).toast == Some("请求的资源不存在")
    ensures HandleHttpError(500, message, url).toast == Some("服务器错误")
    ensures HandleHttpError(502, message, url).toast == Some("网关错误")
    ensures HandleHttpError(503, message, url).toast == Some("服务不可用")
    ensures HandleHttpError(504, message, url).toast == Some("网关超时")
  {
  }

  /** `handleBusinessError(code, message, url)`. */
  function HandleBusinessError(code: int, message: string, url: Option<string>): (e: Effect)
    ensures IsInWhiteList(url) ==> e == NoEffect
    ensures e.clearToken <==> !IsInWhiteList(url) && code == 401
    ensures e.redirect == if e.clearToken then Some(Redirect("/login", 1500)) else None
    ensures !IsInWhiteList(url) && code == 401 ==> e.toast == Some("登录已过期，请重新登录")
    ensures !IsInWhiteList(url) && code == 403 ==> e.toast == Some("没有权限")
    ensures !IsInWhiteList(url) && code != 401 && code != 403 ==>
              e.toast == if message != "" then Some(message) else None
  {
    if IsInWhiteList(url) then NoEffect
    else
      match code
      case 401 => SessionExpired
      case 403 => Toast(TextNoPermission)
      case _ => if message != "" then Toast(message) else NoEffect
  }

  /** `handleNetworkError(message)`: always exactly one toast, no whitelist. */
  function HandleNetworkError(message: string): (e: Effect)
    ensures e.toast.Some? && !e.clearToken && e.redirect.None?
    ensures Contains(message, "Network Error") ==> e.toast == Some("网络连接失败，请检查网络")
    ensures !Contains(message, "Network Error") && Contains(message, "timeout") ==>
              e.toast == Some("请求超时，请重试")
    ensures !Contains(message, "Network Error") && !Contains(message, "timeout") ==>
              e.toast == Some("网络异常，请重试")
  {
    if Contains(message, "Network Error") then Toast(TextNetworkDown)
    else if Contains(message, "timeout") then Toast(TextTimeout)
    else Toast(TextNetworkOther)
  }

  /** Only a 401, as an HTTP status or as a business code, clears the token
   *  and schedules the redirect; and then it always does, off the whitelist. */
  lemma OnlySessionExpiryRedirects(status: int, code: int, message: Option<string>, text: string, url: Option<string>)
    ensures HandleHttpError(status, message, url).redirect.Some? <==> !IsInWhiteList(url) && status == 401
    ensures HandleBusinessError(code, text, url).redirect.Some? <==> !IsInWhiteList(url) && code == 401
    ensures !HandleNetworkError(text).clearToken
  {
  }

  /** Neither an absent nor an empty url is whitelisted; a login url is. */
  lemma WhiteListExamples()
    ensures !IsInWhiteList(None) && !IsInWhiteList(Some(""))
    ensures IsInWhiteList(Some("https://host/api/login?x=1"))
    ensures !IsInWhiteList(Some("/api/user"))
  {
    LoginUrlListed("https://host/api/login?x=1", 12);
    NoContainsShorter("/api/user", "/api/login");
    NoContainsShorter("/api/user", "/api/refresh-token");
  }

  /** A url with the login path at offset `i` contains it. */
  lemma {:induction false} LoginUrlListed(u: string, i: nat)
    requires i <= |u| && StartsWith(u[i..], "/api/login")
    ensures Contains(u, "/api/login")
    decreases i
  {
    if i > 0 {
      assert u[1..][i - 1..] == u[i..];
      LoginUrlListed(u[1..], i - 1);
    }
  }
}
