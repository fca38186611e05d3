# About-page like button, modelled in Dafny

The widget in `assets/js/about-like.js` shows a like count kept by a public
counter web service and lets a visitor like the page once. This project models
the logic inside it, with every network exchange given as a parameter:

- **Response normaliser** (`extractValue`): a bare finite number is the count;
  an object gives the first of its `value`, `count` and `data` fields that holds
  a finite number or a string `Number.parseInt(s, 10)` reads a finite number
  from; anything else gives `null`. `parseInt` is modelled as JavaScript defines
  it for radix 10: skip leading whitespace, take an optional sign, then the
  longest run of decimal digits; NaN without a digit.
- **Fallback selector** (`attemptServiceAction`): the two services (CounterAPI
  and CountAPI) are tried in rotation from the remembered `activeServiceIndex`,
  each at most once; the first success is returned and its index remembered;
  when all fail the action fails and the index is kept. The model splits it
  into its loop (`ScanServices`, which stops at the first success) and the
  step that records the winning service (`AttemptServiceAction`).
- **CountAPI latch** (`ensureInitialized`): the create request goes out at most
  once in the service's lifetime, because `initialized` is set before the
  request and stays set whether the request fails or not.
- **Button state machine**: idle (clickable), pending (disabled, waiting for the
  increment) and liked (disabled for good). At load the button is liked exactly
  when the stored flag reads `"true"`; a click on a liked button does nothing;
  a successful increment shows the new count, goes to liked and stores the flag;
  a failed one goes back to idle. A success whose celebration throws also ends
  idle, with the flag already stored and the counter already incremented, so
  the visitor can like again. The count shown is clamped to a non-negative
  integer.

Modules, one per component: `Wrappers` (Option), `JsNumber` (integer-valued
JavaScript numbers, `parseInt` and the decimal rendering it inverts),
`Payload` (the JSON value and `extractValue`), `Services` (responses, the
per-service outcome, the rotation specified by `SelectFrom`, the CountAPI
client class), `AboutLike` (the `LikeWidget` class holding `isLiked`,
`activeServiceIndex`, the button's `disabled` property and `data-state`, the
count text, the service label and the stored flag) and `Scenarios` (client
methods that follow the widget through whole visits using only its contracts).

Network and storage are parameters: `net[i]` is the response service `i`
receives if it is called during an action (each service is called at most once
per action), `readFails` / `writeFails` say whether local storage throws, and
`confettiThrows` whether the celebration throws. The
CountAPI create request's own response is not a parameter, because the code
ignores it.

The count shown is clamped in the code, so a negative count from a service is
displayed as 0 although the counter itself is described as non-negative.

## Model

| member | source | states |
|---|---|---|
| `JsNumber.ParseInt` | assets/js/about-like.js:49 | `parseInt(s, 10)` is NaN exactly when, after leading whitespace and an optional sign, no decimal digit follows; a negative result needs a leading '-' and without one the result is non-negative; the number read is stated by ParseIntOfNumeral |
| `JsNumber.ParseIntOfNumeral` | assets/js/about-like.js:49 | text made of whitespace, a sign that is empty, `+` or `-`, a non-empty run of digits (leading zeros allowed) and a rest not starting with a digit parses to the signed value of those digits |
| `JsNumber.ParseIntFiniteIsNumeral` | assets/js/about-like.js:49-50 | conversely, whenever `parseInt` gives a finite number the text splits into such whitespace, sign, digits and rest, and the number is the signed value of the digits |
| `JsNumber.ParseIntOfDecimal` | assets/js/about-like.js:49-50 | `parseInt(s, 10)` reads back the decimal text of every integer, positive or negative, whatever non-digit text follows it |
| `JsNumber.ParseIntSkipsWhitespace` | assets/js/about-like.js:49 | leading whitespace never changes what `parseInt` reads |
| `JsNumber.ParseIntWithoutDigits` | assets/js/about-like.js:49-50 | a string without a decimal digit parses to NaN, which `Number.isFinite` rejects |
| `Payload.FieldValue` | assets/js/about-like.js:44-53 | only a candidate field that is present and holds a number or a string can contribute a count |
| `Payload.FieldValueOfNumber` | assets/js/about-like.js:45-47 | a field holding a number contributes exactly when the number is finite, and then contributes that number |
| `Payload.FieldValueOfText` | assets/js/about-like.js:48-52 | a field holding text contributes exactly when the text is whitespace, an optional sign, digits and a rest not starting with a digit, and then contributes the signed value of those digits |
| `Payload.FirstField` | assets/js/about-like.js:42-56 | the result is nothing exactly when no listed field contributes; otherwise it is the contribution of a listed field all of whose predecessors contribute nothing |
| `Payload.ExtractValue` | assets/js/about-like.js:33-57 | a finite number passes through, a non-finite number and every non-object give null, an object gives the value of the first of `value`, `count`, `data` holding a finite number or an integer string, and null only when none does |
| `Payload.ExtractValuePrefersEarlierField` | assets/js/about-like.js:42-47 | when a candidate field qualifies and no earlier one does, that field's value is the result (`value` before `count` before `data`) |
| `Payload.FieldValueOfDecimalText` | assets/js/about-like.js:48-52 | a candidate field holding the decimal text of n contributes n |
| `Services.ServiceOutcome` | assets/js/about-like.js:68-78 | a service call succeeds exactly when the fetch returns, the status is ok, the body is JSON and extractValue finds a count in it, and then returns that count |
| `Services.RotationIndex` | assets/js/about-like.js:240 | the index tried at each step names one of the services |
| `Services.RotationDistinct` | assets/js/about-like.js:239-241 | in one pass no service is tried twice |
| `Services.RotationCovers` | assets/js/about-like.js:239-241 | in one pass every service is tried, service i at step (i - start) mod n |
| `Services.SelectFrom` | assets/js/about-like.js:236-254 | the scan stops at the first success in rotation order, returns it and remembers its index; every service tried before it failed; when all fail it fails, keeps the start index and has tried all of them |
| `Services.SelectFromFirstSuccess` | assets/js/about-like.js:239-247 | when every step before step j fails and step j succeeds, the scan returns that step's outcome, remembers its service and has made j + 1 calls |
| `Services.SelectFromNoSuccess` | assets/js/about-like.js:239-253 | when every step fails, the scan fails, keeps the start index and has called every service |
| `Services.SelectSucceedsIff` | assets/js/about-like.js:239-253 | an action succeeds exactly when some service would succeed |
| `Services.CountApiService.constructor` | assets/js/about-like.js:101-102 | a new client is not initialised and has issued no create request |
| `Services.CountApiService.EnsureInitialized` | assets/js/about-like.js:104-119 | afterwards the latch is set; a create request is issued only when it was not set before, so at most one over the client's lifetime |
| `AboutLike.SafeCount` | assets/js/about-like.js:179-180 | the count shown is the least non-negative integer not below a finite value, and 0 for a non-finite one |
| `AboutLike.LikeWidget.constructor` | assets/js/about-like.js:288-299 | at load the button is liked and disabled exactly when the stored flag could be read and equals `"true"`, otherwise idle and enabled; the first service is preferred |
| `AboutLike.LikeWidget.SetButtonState` | assets/js/about-like.js:184-195 | `isLiked`, `disabled` and the state follow the argument: liked and disabled, or idle and enabled |
| `AboutLike.LikeWidget.UpdateCountText` | assets/js/about-like.js:179-182 | the count text becomes the clamped value |
| `AboutLike.LikeWidget.CallService` | assets/js/about-like.js:123-124 | calling CountAPI sets its latch first; the outcome is the service's outcome for its response |
| `AboutLike.LikeWidget.ScanServices` | assets/js/about-like.js:239-251 | the loop calls the services in rotation from the start index, one per step, and stops after the first success; its outcome and number of calls are those of the scan Select specifies, the last service called is the one that succeeded, and the CountAPI latch is set exactly when it was or CountAPI was called |
| `AboutLike.LikeWidget.AttemptServiceAction` | assets/js/about-like.js:236-254 | returns the scan's outcome and remembers its index; the services invoked are the rotation from the old index, none twice; the service label changes only on success; the CountAPI latch is set exactly when it was or CountAPI was invoked |
| `AboutLike.LikeWidget.InitializeCount` | assets/js/about-like.js:256-266 | shows the clamped count of the first service that answers and labels the section with its name, or shows the unavailable text and keeps the label when none does; the remembered index and the CountAPI latch end as AttemptServiceAction states |
| `AboutLike.LikeWidget.LikeFailedReset` | assets/js/about-like.js:281-284 | the failure handler leaves the button idle, enabled and not liked, with the failure text |
| `AboutLike.LikeWidget.IncrementLike` | assets/js/about-like.js:268-286 | on success the new count is shown, the section labelled with the service and the flag stored unless storage throws; the button then ends liked and disabled, unless the celebration throws, in which case it ends idle and enabled with the failure text although the counter was incremented and the flag stored; on failure the button is idle and enabled, the failure text is shown and flag and label are untouched |
| `AboutLike.LikeWidget.EnterPending` | assets/js/about-like.js:308-309 | the button is disabled and pending |
| `AboutLike.LikeWidget.OnClick` | assets/js/about-like.js:303-311 | a click on a liked button changes nothing; otherwise the increment runs and ends as IncrementLike states |

## Left out

- HTTP: URLs, query strings, methods and `fetch` options are not modelled; each service call is its `Response`, and `getCount` and `increment` share one model because they handle responses identically (the action name only appears in URLs and log messages).
- The CountAPI create request's response and exception: the code ignores both, so only the request being issued is recorded.
- `async`/`await`: calls are sequential. `initializeCount()` (line 301) is not awaited and the click listener is registered right after it, so when the stored flag is not `"true"` a first click can start `incrementLike` while the load-time `getCount` is still running; both scans then read `activeServiceIndex` as it was when they started, and a load that finishes last overwrites the incremented count with the older one, or shows the unavailable text beside a liked button. The model runs `InitializeCount` and `OnClick` one after the other and does not capture that overlap. The CountAPI latch property still holds under it, because `initialized` is set (line 109) before the first `await`. Once a click has started, the disabled button rules out a second overlapping click.
- `triggerConfetti`: animation, window geometry and floating-point origins are not modelled; whether it throws is the `confettiThrows` parameter of `IncrementLike` and `OnClick`, since a throw there reaches the same handler as a failed increment (lines 280-284).
- `formatCount` and `Intl.NumberFormat`: the count text is kept as the number shown, and the fixed messages as named constructors of `CountText` rather than their Chinese strings.
- DOM details: the missing-element early return (lines 7-9), the `liked` class, `aria-pressed`, the icon classes, the count element's `data-state` and `console` logging.
- `localStorage`: reduced to the one optional value under the like key, with read and write failures as parameters.
- JavaScript number semantics beyond integers: numbers are integers or NonFinite; there is no rounding to double precision, so a very long digit string that `parseInt` turns into Infinity is read here as its exact value.
- SafeCount: does not model `Math.trunc` of non-integral values, since numbers are integers here.
- JSON arrays are objects in JavaScript but have none of the three candidate fields, so `extractValue` gives null for them; the model says so directly.
