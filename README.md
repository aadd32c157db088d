# React mobile template: request pipeline, stores and utilities in Dafny

This project models the runtime core of a React + TypeScript mobile app
template and proves properties of the model. The core has six parts.

- **Request pipeline.** The registry of pending requests (`CancelRequest`) aborts a
  request when an identical one is issued. The counting loading store
  (`showLoading`/`hideLoading`) drives the spinner. The error handlers map HTTP
  statuses, business codes and network failures to a toast, a token clear and
  a delayed redirect to `/login`. The request and response interceptors tie
  these together. A dispatch followed by a settle is modelled as one call
  (`Interceptors.Pipeline.Request`).
- **Storage.** `EnhancedStorage` is a key-value store with a key prefix and optional
  expiry over localStorage. With it come `setWithExpire`, `getOnce`, `setMultiple` and `getMultiple`.
- **Popups.** A registry of popups and the `usePopup` controller that opens and
  closes them.
- **URL and validation utilities.** Query building (`buildUrlParams`,
  `addUrlParams`, with the WHATWG form-urlencoded serializer written out),
  external-link detection, path joining, and the regular-expression
  validators written as character-class predicates.
- **Gesture and scroll logic.** Swipe classification in `useTouch`;
  direction and edge detection in `useScroll`.
- **App settings.** An application settings store with four fields, their
  setters and a reset.

Form follows the source. State that the source updates in place is a class
with `modifies` clauses: the pending map, the loading counter, the storage
engine, the popup list, the touch record, the last scroll offset and the
app settings. Pure logic is functions and lemmas: keys, error mapping,
serialization, validators and swipe classification.

Inputs from the environment are parameters:
- the clock (`now`);
- touch coordinates;
- scroll offsets and heights;
- the transport's answer for a request (`Interceptors.Transport`);
- the user's token (a field of the pipeline).

The JSON text of arbitrary values is kept abstract as a string. The
StorageData record (`value`, `timestamp`, `expire`) is rendered concretely
around it.

The loading counter has no floor, and only the success path releases a pending entry; the model follows the code:
- The loading counter has no floor. A hide at count 0 goes to −1
  (`Loading.HideAtZero`). A request sent with `showLoading: false` still
  triggers a hide, so it nets −1 (`Interceptors.Pipeline.Request`).
- Only the success path of the response interceptor removes the pending
  entry. The error path leaves it registered, so the key stays until it is
  superseded or cleared.

## Model

| member | source | states |
|---|---|---|
| Cancel.RequestKey | src/services/cancel.ts:15-18 | the key is the method, the url, the params text and the data text joined by '&', an undefined part rendering as '' |
| Cancel.KeyOf | src/services/cancel.ts:15-18 | the key of a config is computed from its method, url, params and data alone, so equal descriptors give equal keys |
| Cancel.KeyRoundTrip | src/services/cancel.ts:15-18 | the key is method, url, params text and data text joined by '&'; when the first three hold no '&' it splits back into exactly those four parts |
| Cancel.CancelRequest.constructor | src/services/cancel.ts:7-9 | the registry starts empty |
| Cancel.CancelRequest.GetPendingCount | src/services/cancel.ts:66-68 | the count is the number of keys in the map |
| Cancel.CancelRequest.RemovePending | src/services/cancel.ts:41-51 | a present key's controller is aborted and only that entry is deleted, decreasing the count by one; an absent key changes nothing |
| Cancel.CancelRequest.AddPending | src/services/cancel.ts:24-36 | a fresh un-aborted controller becomes the request's signal and the only change to the map is its key; a controller previously under that key is aborted; the count grows by one exactly when the key was new; no stored controller is aborted or shared |
| Cancel.CancelRequest.ClearPending | src/services/cancel.ts:56-61 | every stored controller is aborted and the map is empty |
| Loading.LoadingStore.constructor | src/store/modules/use-loading-store.ts:19-21 | count 0, not loading |
| Loading.LoadingStore.ShowLoading | src/store/modules/use-loading-store.ts:22 | count + 1 and loading |
| Loading.LoadingStore.HideLoading | src/store/modules/use-loading-store.ts:23-24 | count − 1, loading iff the new count is positive |
| Loading.LoadingStore.Show | src/store/modules/use-loading-store.ts:26-28 | same transition as showLoading |
| Loading.LoadingStore.Hide | src/store/modules/use-loading-store.ts:29-31 | same transition as hideLoading |
| Loading.Apply | src/store/modules/use-loading-store.ts:22-24 | the store's reducer: showLoading adds one and raises the flag; hideLoading takes one away and sets the flag to the new count being positive |
| Loading.ShowEffect | src/store/modules/use-loading-store.ts:22 | a show raises the count by one and sets loading |
| Loading.HideEffect | src/store/modules/use-loading-store.ts:23-24 | a hide lowers the count by one; loading iff the result is positive |
| Loading.HideAtZero | src/store/modules/use-loading-store.ts:23-24 | a hide on the initial store gives count −1 with no floor |
| Loading.RunCount | src/store/modules/use-loading-store.ts:19-24 | after any sequence of shows and hides the count is shows minus hides |
| Loading.BalancedInvariant | src/store/modules/use-loading-store.ts:15-24 | if no prefix has more hides than shows, the count stays non-negative and loading holds iff the count is positive |
| Loading.LoadingWhileOutstanding | src/store/modules/use-loading-store.ts:15-24 | at every point of a balanced run, loading holds iff more shows than hides happened so far, so it ends with the last outstanding request |
| ErrorHandler.IsInWhiteList | src/services/error-handler.ts:8-16 | false for a missing or empty url; otherwise true iff the url contains '/api/login' or '/api/refresh-token' |
| ErrorHandler.WhiteListExamples | src/services/error-handler.ts:8-16 | missing and empty urls are not whitelisted; a url containing '/api/login' is; '/api/user' is not |
| ErrorHandler.HandleHttpError | src/services/error-handler.ts:21-88 | a whitelisted url gets no effect; otherwise exactly one toast; the token is cleared and '/login' scheduled after 1500 ms iff the status is 401; 400 and unmapped statuses show the message when non-empty, else their fallback text |
| ErrorHandler.HttpStatusTexts | src/services/error-handler.ts:34-80 | the fixed texts for 401, 403, 404, 500, 502, 503 and 504 |
| ErrorHandler.HandleBusinessError | src/services/error-handler.ts:93-125 | a whitelisted url gets no effect; 401 clears the token and redirects; 403 shows '没有权限'; any other code toasts the server message iff it is non-empty |
| ErrorHandler.HandleNetworkError | src/services/error-handler.ts:131-149 | always exactly one toast and no token change; 'Network Error' takes precedence over 'timeout'; anything else gets the generic text |
| ErrorHandler.OnlySessionExpiryRedirects | src/services/error-handler.ts:21-149 | a redirect happens iff HTTP status 401 or business code 401 on a non-whitelisted url; the network handler never clears the token |
| Interceptors.Authorized | src/services/interceptors/request.ts:12-15 | the headers after the token step: an Authorization entry 'Bearer ' + token when there is a token and there are headers |
| Interceptors.ErrorEffect | src/services/interceptors/response.ts:38-62 | the error handler's branches in order: cancellation, missing response, then the HTTP handler gated by showError |
| Interceptors.EnvelopeEffect | src/services/interceptors/response.ts:18-33 | the success handler's report: none for codes 200 and 0, otherwise the business handler gated by showError |
| Interceptors.TransportEffect | src/services/interceptors/response.ts:10-62 | the report for a request that was not aborted, by what the transport gave back |
| Interceptors.AuthorizedIff | src/services/interceptors/request.ts:11-15 | the Authorization header becomes 'Bearer ' + token exactly when there is a token and headers exist; otherwise the headers are unchanged |
| Interceptors.ErrorEffectCases | src/services/interceptors/response.ts:38-62 | a cancelled request is never reported; without a response the network text is always shown; with one, the HTTP handler runs iff showError is not false |
| Interceptors.EnvelopeEffectCases | src/services/interceptors/response.ts:20-33 | codes 200 and 0 are never reported; other codes go to the business handler only when showError is not false; the token is cleared iff code 401, shown, not whitelisted |
| Interceptors.NoResponseEffect | src/services/interceptors/response.ts:48-52 | without a response the effect is the network handler's, whatever the config says |
| Interceptors.Pipeline.RequestFulfilled | src/services/interceptors/request.ts:10-33 | returns the same config with the token header set; registers a fresh un-aborted signal under its key, aborting any previous one; shows the loading only when showLoading is not false |
| Interceptors.Pipeline.RequestRejected | src/services/interceptors/request.ts:38-43 | one hide, the error is passed on, the registry is unchanged |
| Interceptors.Pipeline.ResponseFulfilled | src/services/interceptors/response.ts:10-33 | removes (and aborts) the entry for the response's key; one hide; resolves with the data for codes 200/0, else rejects with the envelope; the effect is the business mapping and a 401 clears the token |
| Interceptors.Pipeline.ResponseRejected | src/services/interceptors/response.ts:38-62 | one hide; the registry is untouched; the effect is the error mapping; the error is passed on |
| Interceptors.Pipeline.Settle | src/services/interceptors/response.ts:10-62 | exactly one hide on every path; an aborted request is rejected with ERR_CANCELED and no report; otherwise a code 200 or 0 resolves with the data, another code rejects with the envelope, a failure rejects with its axios error, the effect follows the transport's answer, and only an answered request leaves the registry (aborting its controller) |
| Interceptors.TransportOutcomeCases | src/services/interceptors/response.ts:18-62 | only an answered request with code 200 or 0 resolves, with the envelope's data; another code rejects with the envelope; a failure rejects with an axios error carrying its message, and its status exactly when a response arrived |
| Interceptors.Pipeline.Request | src/services/interceptors/request.ts:10-33 | dispatch then settle: the header carries the token; the loading state is one show (unless showLoading is false) then one hide, so the count returns to its old value for a default request and ends one lower for showLoading false; an older request under the key is aborted; an answered request leaves the registry with its controller aborted, a failed one stays registered live and every other entry is unchanged; the outcome, the effect and the token are those of the transport's answer |
| Interceptors.Pipeline.DispatchTwice | src/services/cancel.ts:24-36 | two dispatches under one key leave the first's controller aborted and the second's live and stored under the key, with every other entry unchanged |
| Interceptors.Pipeline.Supersede | src/services/cancel.ts:24-36 | a second request with the same key aborts the first, which then settles as a silent ERR_CANCELED rejection, whatever its transport reported; the second stays registered and live |
| Interceptors.Pipeline.LateResponse | src/services/interceptors/response.ts:10-15 | when the first of two same-key requests reaches the success handler after the second was dispatched, releasing the shared key aborts the second request's controller and the key leaves the registry |
| Storage.EntryText | src/utils/storage.ts:53-64 | the record's JSON text: fields value, timestamp and (when given) expire in insertion order; it is a non-empty object text |
| Storage.Expired | src/utils/storage.ts:79-82 | a record is expired when its expiry is present and non-zero and more than that many milliseconds have passed since it was written |
| Storage.Lookup | src/utils/storage.ts:71-85 | what get returns: null for a missing or expired record, else the stored value |
| Storage.AfterLookup | src/utils/storage.ts:79-82 | get removes an expired record and leaves the engine otherwise as it was |
| Storage.SetThenGet | src/utils/storage.ts:53-85 | a value written with no expiry, expiry 0, or an expiry not yet passed is read back |
| Storage.ExpiredGet | src/utils/storage.ts:71-85 | a value whose non-zero expiry has passed reads as null and is removed |
| Storage.LookupStable | src/utils/storage.ts:71-85 | the removal a read may do does not change what any key reads as |
| Storage.HasIgnoresExpiry | src/utils/storage.ts:111-113 | an expired entry is still present for has, though get returns null and deletes it |
| Storage.SeqSizeIsSizeOf | src/utils/storage.ts:132-142 | summing key length plus record length over a duplicate-free key list gives the size of the key set |
| Storage.SetAllReads | src/utils/storage.ts:194-198 | after a batch write of distinct keys, each key reads back its value and every other physical key is unchanged |
| Storage.EnhancedStorage.constructor | src/utils/storage.ts:35-38 | the prefix is the given one, or 'app_' when it is empty |
| Storage.EnhancedStorage.GetKey | src/utils/storage.ts:43-45 | the physical key is the prefix followed by the key |
| Storage.EnhancedStorage.Set | src/utils/storage.ts:53-64 | only the physical key changes, to the value with the current time and the given expiry |
| Storage.EnhancedStorage.Get | src/utils/storage.ts:71-89 | returns the value unless missing or expired; an expired entry is removed and nothing else changes |
| Storage.EnhancedStorage.Remove | src/utils/storage.ts:94-96 | only the physical key is removed |
| Storage.EnhancedStorage.Has | src/utils/storage.ts:111-113 | true iff the physical key is present |
| Storage.EnhancedStorage.Keys | src/utils/storage.ts:118-127 | each engine key with the prefix, once each |
| Storage.EnhancedStorage.Clear | src/utils/storage.ts:101-106 | removes exactly the keys with the prefix |
| Storage.EnhancedStorage.GetSize | src/utils/storage.ts:132-142 | the total length, in UTF-16 code units, of the prefixed keys and their records |
| Storage.EnhancedStorage.GetRemainingSpace | src/utils/storage.ts:147-151 | 5 MB minus that size |
| Storage.SetWithExpire | src/utils/storage.ts:176-178 | a set with expiry minutes × 60 000 ms |
| Storage.GetOnce | src/utils/storage.ts:183-189 | returns what get returns, after which the key is gone, except that a stored null is returned and kept |
| Storage.GetOnceTwice | src/utils/storage.ts:183-189 | a second getOnce of the same key returns null, unless the value is a stored null |
| Storage.SetMultiple | src/utils/storage.ts:194-198 | the engine is the result of the batch write, in order |
| Storage.GetMultiple | src/utils/storage.ts:203-209 | one result per requested key, each what get would have returned at the start; afterwards the engine has lost exactly the expired records among the requested keys |
| Storage.PurgedStep | src/utils/storage.ts:71-85 | one more get extends the set of read keys whose expired records are removed |
| Popup.PopupStore.constructor | src/store/modules/use-popup-store.ts:52-53 | the registry starts empty |
| Popup.PopupStore.SetPopup | src/store/modules/use-popup-store.ts:58-67 | registers or overwrites only that popup |
| Popup.PopupStore.RemovePopup | src/store/modules/use-popup-store.ts:72-82 | unregisters only that popup; an unregistered key changes nothing |
| Popup.PopupStore.Clear | src/store/modules/use-popup-store.ts:87-89 | the registry is empty |
| Popup.SetThenRemove | src/store/modules/use-popup-store.ts:58-82 | registering a fresh popup and removing it restores the registry |
| Popup.PopupStore.IsPopupOpen | src/hooks/use-popup/index.ts:128-131 | true iff the popup is registered and shown; false for an unregistered one |
| Popup.PopShow | src/hooks/use-popup/index.ts:57-76 | closeOthers defaults to false; an unregistered or open popup is left alone; otherwise it opens, and with closeOthers it is the only open popup |
| Popup.PopClose | src/hooks/use-popup/index.ts:82-96 | closes a registered open popup and changes nothing else; otherwise no change |
| Popup.PopCloseAll | src/hooks/use-popup/index.ts:101-107 | same popups registered, none open |
| Popup.GetOpenPopups | src/hooks/use-popup/index.ts:113-121 | each open popup exactly once, and only those |
| Popup.CloseAllThenList | src/hooks/use-popup/index.ts:101-121 | after closing all, the open list is empty |
| Url.Kept | src/utils/url.ts:60-64 | the entries buildUrlParams appends, in order: those whose value is neither undefined nor null |
| Url.Serialize | src/utils/url.ts:66 | URLSearchParams.toString(): encoded name=value pairs joined by '&' |
| Url.Encode | src/utils/url.ts:57-67 | a form-urlencoded name or value holds only letters, digits, '*-._', '+' and '%' |
| Url.EncodeNoDelimiters | src/utils/url.ts:57-67 | an encoded name or value contains neither '&' nor '=' |
| Url.EncodeUnreserved | src/utils/url.ts:57-67 | text of letters, digits and '*-._' is serialized unchanged |
| Url.EncodeCharExamples | src/utils/url.ts:57-67 | a space becomes '+', and '&', '=', '/' become %26, %3D, %2F |
| Url.KeptMembers | src/utils/url.ts:60-64 | an entry is serialized iff its value is neither undefined nor null |
| Url.KeptNone | src/utils/url.ts:60-64 | nothing is kept iff every value is undefined or null |
| Url.SerializeEmpty | src/utils/url.ts:66 | the query string is empty iff there are no kept entries |
| Url.SerializeSplit | src/utils/url.ts:57-67 | splitting the query string on '&' gives one name=value pair per kept entry, in order, and each splits on '=' into the encoded name and value |
| Url.BuildUrlParams | src/utils/url.ts:57-67 | the serialization of the kept entries in order; '' exactly when every value is undefined or null |
| Url.AddUrlParams | src/utils/url.ts:81-87 | the url unchanged when no entry is kept; otherwise url, a separator and the query, the separator being '&' iff the url already contains '?', else '?' |
| Url.IsExternalLink | src/utils/url.ts:150-152 | the pattern `^(https?:)?//`: an optional http: or https: scheme, then '//' |
| Url.TrimSegment | src/utils/url.ts:179-189 | one segment as joinPath rewrites it: one leading '/' dropped except on the first segment, then one trailing '/' dropped |
| Url.JoinPath | src/utils/url.ts:177-192 | the trimmed segments, empty ones dropped, joined by '/' |
| Url.IsExternalLinkIff | src/utils/url.ts:150-152 | a link is external iff it starts with 'http://', 'https://' or '//' |
| Url.JoinPathEmpty | src/utils/url.ts:177-192 | the joined path is '' iff every segment trims to nothing, in particular for no segments |
| Url.JoinPathLeadingSlash | src/utils/url.ts:177-192 | a first segment of two or more characters starting with '/' keeps that '/'; a bare '/' first segment trims to '' and is dropped (see Url.JoinPathBareRoot) |
| Url.TrimSegmentOneSlash | src/utils/url.ts:179-189 | examples: one leading '/' (not on the first segment) and one trailing '/' are removed, and a bare '/' first segment trims to '' |
| Url.JoinPathExample | src/utils/url.ts:166-192 | examples: ('/api','user','123') gives '/api/user/123'; slashes at the joins are not doubled; no segments give '' |
| Url.JoinPathBareRoot | src/utils/url.ts:179-191 | a bare '/' first segment trims to '' and is dropped: ('/','api') gives 'api', not '/api' |
| Validate.IsPhone | src/utils/validate.ts:9-11 | `^1[3-9]\d{9}$` as a predicate on the characters |
| Validate.IsTel | src/utils/validate.ts:16-18 | `^0\d{2,3}-?\d{7,8}$`, the area code taking 2 or 3 digits |
| Validate.IsEmail | src/utils/validate.ts:23-25 | a local part, '@', a domain, a dot and at least two letters, each part in its character class |
| Validate.IsIdCard | src/utils/validate.ts:30-34 | the three alternatives: 15 digits, 18 digits, or 17 digits and a digit, 'X' or 'x' |
| Validate.IsIP | src/utils/validate.ts:51-53 | four dot-separated fields, each one of the octet alternatives |
| Validate.IsChinese | src/utils/validate.ts:66-68 | one or more characters in U+4E00..U+9FA5 |
| Validate.IsEnglish | src/utils/validate.ts:73-75 | one or more ASCII letters |
| Validate.IsNumber | src/utils/validate.ts:80-82 | one or more ASCII digits |
| Validate.IsDecimal | src/utils/validate.ts:102-104 | digits, a dot, digits, both runs non-empty |
| Validate.IsPassword | src/utils/validate.ts:116-127 | the level defaults to 1; level 1 by code-unit length, levels 2 and 3 by their lookahead patterns, any other level false |
| Validate.IsBankCard | src/utils/validate.ts:132-134 | a digit run of 10 to 30 starting 1-9 |
| Validate.IsCarNumber | src/utils/validate.ts:139-148 | the new-energy pattern (8 characters ending 'D' or 'F') or the normal one (7 characters), sharing the province, letter and five plate characters |
| Validate.IsQQNumber | src/utils/validate.ts:153-155 | a digit run of 5 to 11 starting 1-9 |
| Validate.IsWechatId | src/utils/validate.ts:160-162 | 6 to 20 characters, an ASCII letter then letters, digits, '_' or '-' |
| Validate.IsPostCode | src/utils/validate.ts:167-169 | six digits starting 1-9 |
| Validate.IsLengthInRange | src/utils/validate.ts:185-188 | min ≤ length in UTF-16 code units ≤ max |
| Validate.HasSpecialChar | src/utils/validate.ts:200-202 | some character is one of !@#$%^&*(),.?":{}\|<> |
| Validate.IsAlphanumeric | src/utils/validate.ts:207-209 | one or more ASCII letters or digits |
| Validate.Utf16Length | src/utils/validate.ts:116-119 | a string's length in UTF-16 code units lies between its character count and twice that |
| Validate.PhoneIff | src/utils/validate.ts:9-11 | exactly 11 ASCII digits, the first '1' and the second 3 to 9 |
| Validate.TelWithoutHyphen | src/utils/validate.ts:16-18 | a hyphen-free landline number is '0' followed by 9 to 11 digits |
| Validate.TelHyphenPlace | src/utils/validate.ts:16-18 | every character is a digit except a hyphen directly after a 2- or 3-digit area code |
| Validate.EmailShape | src/utils/validate.ts:23-25 | an address has exactly one '@' and ends in a dot followed by at least two letters |
| Validate.IdCardIff | src/utils/validate.ts:30-34 | 15 digits, or 18 characters whose first 17 are digits and whose last is a digit, 'X' or 'x' |
| Validate.OctetIff | src/utils/validate.ts:51-53 | an octet matches iff it is 1 to 3 digits with value at most 255, leading zeros allowed |
| Validate.IPIff | src/utils/validate.ts:51-53 | an IPv4 address is four dot-separated octets of 1 to 3 digits, each at most 255 |
| Validate.IPExamples | src/utils/validate.ts:51-53 | '192.168.001.255' is accepted |
| Validate.ChineseRelations | src/utils/validate.ts:66-68 | Han text has as many code units as characters and is neither English, alphanumeric nor special |
| Validate.DecimalNotNumber | src/utils/validate.ts:102-104 | a decimal is never a plain number |
| Validate.PasswordLevels | src/utils/validate.ts:116-127 | levels 2 and 3 imply level 1, no password meets both 2 and 3, any other level rejects, and the default level is 1 |
| Validate.DigitRunIff | src/utils/validate.ts:132-134 | a digit run is a number of the allowed length whose first digit is not 0 |
| Validate.DigitRunsAreNumbers | src/utils/validate.ts:132-169 | bank cards have 10 to 30 digits, QQ numbers 5 to 11, post codes 6, and all three are numbers |
| Validate.PlateCharIff | src/utils/validate.ts:139-148 | the plate serial class is upper-case letters and digits other than E, I and O |
| Validate.CarNumberExamples | src/utils/validate.ts:139-148 | '京A12345' and '粤B12345D' are accepted, '京A1234E' is not |
| Validate.WechatIdLength | src/utils/validate.ts:160-162 | a WeChat id is 6 to 20 code units long |
| Validate.AlphanumericRelations | src/utils/validate.ts:200-209 | English words and numbers are alphanumeric, and alphanumeric text has no special character |
| Touch.SwipeOf | src/hooks/use-touch/index.ts:97-115 | handleTouchEnd's branching: horizontal iff abs(deltaX) > abs(deltaY), right before left and down before up, each needing its callback |
| Touch.SwipeAxis | src/hooks/use-touch/index.ts:101-115 | a horizontal swipe needs abs(deltaX) > abs(deltaY) strictly; ties go to the vertical branch |
| Touch.SwipeThresholds | src/hooks/use-touch/index.ts:101-115 | each swipe fires iff its strict threshold test and callback hold and no earlier test of its branch fired |
| Touch.NonNegativeThreshold | src/hooks/use-touch/index.ts:97-115 | with threshold ≥ 0, left and up need only their own tests, and a displacement within the threshold fires nothing |
| Touch.NegativeThresholdEdge | src/hooks/use-touch/index.ts:101-107 | with a negative threshold and no right callback, a rightward move fires the left callback |
| Touch.Tracker.constructor | src/hooks/use-touch/index.ts:34-53 | all coordinates 0, threshold 50 unless given |
| Touch.Tracker.HandleTouchStart | src/hooks/use-touch/index.ts:69-79 | start and end at the touch point, both deltas 0 |
| Touch.Tracker.HandleTouchMove | src/hooks/use-touch/index.ts:84-92 | the end is the touch point and each delta is end minus start; start unchanged |
| Touch.Tracker.HandleTouchEnd | src/hooks/use-touch/index.ts:97-118 | fires at most one swipe, the one the classification gives |
| Touch.Tap | src/hooks/use-touch/index.ts:69-118 | a release right after a start fires no swipe when the threshold is not negative |
| Touch.Gesture | src/hooks/use-touch/index.ts:69-118 | start, move, release classify the displacement between the two points |
| Scroll.DirectionOf | src/hooks/use-scroll/index.ts:64-70 | 'down' iff y grew, 'up' iff it shrank, none iff unchanged |
| Scroll.DirectionReverses | src/hooks/use-scroll/index.ts:64-70 | swapping the two offsets swaps down and up |
| Scroll.AtBottom | src/hooks/use-scroll/index.ts:91-103 | scrollY + clientHeight ≥ scrollHeight − bottomOffset |
| Scroll.AtBottomMonotone | src/hooks/use-scroll/index.ts:91-103 | once the bottom test holds it holds further down |
| Scroll.ScrollTracker.constructor | src/hooks/use-scroll/index.ts:36-53 | at rest at the origin, bottom offset 100 unless given |
| Scroll.ScrollTracker.HandleScroll | src/hooks/use-scroll/index.ts:59-103 | the info carries x, y, isScrolling true and the direction against the previous y, which is then replaced by y; reach-top iff y = 0 and a callback; reach-bottom iff y + clientHeight ≥ scrollHeight − offset and a callback |
| Scroll.ScrollInPlace | src/hooks/use-scroll/index.ts:59-80 | a second event at the same offset carries no direction |
| AppSettings.AppStore.constructor | src/store/modules/use-app-store.ts:41-46 | 'light', 'zh-CN', 'React Mobile App', first visit |
| AppSettings.AppStore.SetTheme | src/store/modules/use-app-store.ts:66 | only the theme changes |
| AppSettings.AppStore.SetLanguage | src/store/modules/use-app-store.ts:68 | only the language changes |
| AppSettings.AppStore.SetAppTitle | src/store/modules/use-app-store.ts:70 | only the title changes |
| AppSettings.AppStore.MarkVisited | src/store/modules/use-app-store.ts:72 | only the first-visit flag changes, to false; a second call changes nothing |
| AppSettings.AppStore.Reset | src/store/modules/use-app-store.ts:74 | the state is the initial state |
| AppSettings.ChangeThenReset | src/store/modules/use-app-store.ts:62-75 | the sequence setTheme, setLanguage, setAppTitle, markVisited, reset ends in the initial state, whatever values were set |
| Strings.ContainsIff | src/services/error-handler.ts:15 | the left-to-right scan for includes finds a pattern iff it occurs at some position |

## Left out

- Toasts, `window.location`, `setTimeout` and the console are not performed. The error handlers return them as an `Effect` value: the toast text, a token clear, and a redirect with its delay.
- Axios itself is reduced to the interceptors' view: the config fields they read, an abort flag on the controller, and the transport's answer as a parameter. Promise scheduling is replaced by explicit dispatch and settle calls.
- Axios rewriting `config.data` between the two interceptors is not modelled: the key is taken to be the same at `addPending` and `removePending`.
- The user store is not part of this model. Its `token` is a field of the pipeline, and `clearToken` sets it to the empty string.
- `JSON.stringify` of params, data and stored values is kept as text supplied by the caller. `JSON.parse` failures on foreign non-JSON entries, and quota exceptions caught in `set`, are not modelled.
- Cancel.KeyRoundTrip: the key only splits back when the method, url and params text hold no '&'. Two requests can share a key when a part does contain '&'; this is not exhibited.
- Storage.SetWithExpire: the minutes are an integer; the source's `number` also allows fractions (0.5 minutes is 30000 ms).
- Storage.SetMultiple: every item is stamped with one `now`; the source reads `Date.now()` afresh in each `set`, so later items may carry later timestamps.
- The storage engine is a map. The iteration order of `localStorage.key(i)` is not modelled, so `keys()` is specified by membership and absence of duplicates.
- Popup items are reduced to their `show` flag. The component's `setShow` setter is modelled as writing the new flag back into the registry, which skips the React re-render through which the source achieves that.
- The insertion order of the popup `Map` is not modelled. `getOpenPopups` is specified by membership and no duplicates.
- Url.BuildUrlParams: `Object.entries` order takes the entries as a given sequence. JavaScript's ordering of integer-like keys first is not modelled. `String(value)` of non-string values is the caller's text.
- `URLSearchParams` percent-encoding is written out for Unicode scalar values; lone surrogates (which the browser replaces by U+FFFD) cannot occur in a Dafny string.
- `parseUrlParams`, `getUrlParam`, `removeUrlParams`, `updateUrlParams` and `getDomain` are not modelled: they depend on `window.location`, the `URL` constructor and the history API.
- `isUrl`, `isPort`, `isInteger`, `isPositiveInteger`, `isNumberInRange`, `isEmpty` and `matchPattern` are not modelled: they rest on `Number()`, dynamic types or arbitrary regular expressions.
- Validate.IsNumber and Validate.IsDecimal take the text of the value: numeric inputs, whose `String()` rendering is needed first, are not modelled. `isLengthInRange` takes integer bounds, and non-integer or NaN bounds are not modelled.
- Validate.IsIP: the pattern is evaluated by splitting at the dots, which is equivalent because no octet alternative matches a dot; regex backtracking itself is not modelled.
- Touch and scroll coordinates are integers; fractional pixel values are not modelled. The optional `onTouchStart`/`onTouchMove`/`onTouchEnd` and `onScroll` callbacks only receive the state, and are left out.
- `useScroll`: the throttle, the 150 ms timer that clears `isScrolling`, and the listener registration are left out. The window and element branches of the bottom test compute the same comparison and are one in the model.
- Persistence of the app settings store to localStorage (the persisted-store wrapper) is not modelled.
