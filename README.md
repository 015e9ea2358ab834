# woop-sdk widget loader — verified model

This project models the two pieces of logic in the woop-sdk loader.

**The app-code allow-list** (`src/validateAppCode.ts`). The module builds a set of valid application codes once, from the comma-separated value of `WOOP_VALID_APP_CODES`. `validateAppCode` accepts a configuration whose code is non-empty and in that set. `registerAppCode` adds a code to the set in place.

**The widget loader** (`src/createWoopWidget.ts`). It marshals a `WidgetConfig` into seven ordered query parameters on the iframe URL. It also runs the host side of the wallet handshake: on the frame's `load` event, and on every `CONNECT_WALLET` message from `http://localhost:3000`, it asks the wallet provider for `eth_accounts` and then `eth_chainId`, and posts a `WOOP_CONNECT` message into the frame.

Layout, one module per file:
- `wrappers.dfy` (`Wrappers`): `Option`.
- `js_strings.dfy` (`JsStrings`): the JavaScript `trim`, `split` and `join` the source calls, with their round trips.
- `form_urlencoded.dfy` (`FormUrlencoded`): the `URLSearchParams` serializer and parser. The percent-encoder is a parameter.
- `widget_types.dfy` (`WidgetTypes`): the `WidgetConfig` record from `src/types.ts`.
- `validate_app_code.dfy` (`AppCodes`): the environment parse, as functions, and the class `AppCodeRegistry`, which holds the set.
- `create_woop_widget.dfy` (`WoopWidget`): query construction, and the spec functions `Round` and `ListenerEvents` for the handshake. The class `Widget` has a ghost `log` of provider requests and posts. Its methods `SendWalletInfo`, `OnLoad` and `OnMessage` are proved to append exactly what the spec functions say.

The provider's answers are inputs to each round. This is why no answer is cached from one round to the next. `frameAttached` says whether `iframe.contentWindow` still exists when the post is due.

Details of the code that the model keeps as written:
- The `buttonColor` default is `#4B6BFB`.
- An absent `modules` becomes the text `undefined`, and a `null` one the text `null`.
- The loader posts `WOOP_CONNECT` messages into the frame and answers the frame's `CONNECT_WALLET` messages.
- The logo is passed through as given.
- `createWoopWidget` returns nothing, so no handle to the widget exists.
- Codes are checked against the environment list and the registered codes only.

## Model

| member | source | states |
|---|---|---|
| JsStrings.TrimStart | src/validateAppCode.ts:9 | the result is a suffix of the input, everything dropped is whitespace, and the result does not start with whitespace |
| JsStrings.TrimEnd | src/validateAppCode.ts:9 | the result is a prefix of the input, everything dropped is whitespace, and the result does not end with whitespace |
| JsStrings.Trim | src/validateAppCode.ts:9 | `code.trim()` has no whitespace at either end and is no longer than its input |
| JsStrings.TrimOfPadded | src/validateAppCode.ts:9 | trimming any whitespace-padded trimmed text gives exactly that text, so `trim` is fully characterised |
| JsStrings.TrimIntroducesNothing | src/validateAppCode.ts:9 | a character absent from the input is absent from the trimmed result |
| JsStrings.TrimTrimmed | src/validateAppCode.ts:9 | trimming is the identity on already trimmed text |
| JsStrings.Split | src/validateAppCode.ts:8 | `split(",")` gives at least one piece and no piece contains the separator |
| JsStrings.Join | src/createWoopWidget.ts:11 | `join(",")` of no parts is `""`; otherwise the result starts with the first part, followed by the separator when more parts follow; the result is at least as long as the number of separators, one fewer than the parts |
| JsStrings.JoinSplit | src/validateAppCode.ts:8 | joining the pieces of a split with the separator rebuilds the original string |
| JsStrings.SplitJoin | src/createWoopWidget.ts:11 | splitting a join of a non-empty list of separator-free parts gives the list back |
| FormUrlencoded.SplitField | src/createWoopWidget.ts:9-17 | the field step of the `URLSearchParams` parser, which the source does not call; it is used to state the round trip of the query: a field's name is cut at its first `=` and never contains `=`; a field without `=` is a name with an empty value |
| FormUrlencoded.Serialize | src/createWoopWidget.ts:9-17 | `new URLSearchParams(...).toString()`: parsing the result gives every pair back, in order, encoded, provided the encoder never emits `&` or `=` |
| AppCodes.EnvCodes | src/validateAppCode.ts:6-10 | an unset or empty variable gives no codes; otherwise there is one code per comma-separated piece, and each code is its piece trimmed |
| AppCodes.TrimEach | src/validateAppCode.ts:9 | `map((code) => code.trim())`: as many codes as pieces, each code the trimmed piece at the same index |
| AppCodes.TrimmedSet | src/validateAppCode.ts:11 | `new Set` of the trimmed pieces: a code is a member exactly when some piece trims to it |
| AppCodes.ValidCodes | src/validateAppCode.ts:6-11 | the set is empty for an unset or empty variable, and otherwise holds exactly the trimmed comma-separated pieces |
| AppCodes.ValidCodesAreEnvCodes | src/validateAppCode.ts:11 | `VALID_APP_CODES` is `new Set(ENV_CODES)`: the initial set holds exactly the codes of the environment list |
| AppCodes.EnvCodesAreTrimmed | src/validateAppCode.ts:8-9 | every code from the environment has no whitespace at either end and no comma |
| AppCodes.EnvListRoundTrip | src/validateAppCode.ts:6-11 | a non-empty list of trimmed, comma-free codes other than `[""]`, written into the variable joined by commas, yields exactly those codes |
| AppCodes.JoinAroundEmpty | src/validateAppCode.ts:8 | the list `[a, "", b]` joined with commas is the text `a,,b` |
| AppCodes.EmptyPieceListsEmptyCode | src/validateAppCode.ts:6-11 | the variable `a,,b`, with `a` and `b` trimmed and comma-free, yields exactly {a, "", b}: an empty piece lists the empty code |
| AppCodes.AppCodeRegistry.FromEnvironment | src/validateAppCode.ts:11 | the registry starts with exactly the codes parsed from the variable |
| AppCodes.AppCodeRegistry.Validate | src/validateAppCode.ts:13-27 | true exactly when the code is non-empty and in the set, matched without trimming; an empty code is refused even when the set holds `""`; the set is not modified |
| AppCodes.AppCodeRegistry.Register | src/validateAppCode.ts:30-33 | always returns true, and the new set is the old set plus the code, so every other code keeps its membership |
| AppCodes.RegisterTwice | src/validateAppCode.ts:30-33 | registering the same code twice leaves the set that one registration leaves |
| AppCodes.RegisterThenValidate | src/validateAppCode.ts:13-33 | after registering a non-empty code, validation of that code succeeds and no other code changes membership |
| WoopWidget.OrElse | src/createWoopWidget.ts:14-16 | `value || fallback` on text: a non-empty value is kept; the result is the fallback exactly when the value is absent, empty or equal to the fallback |
| WoopWidget.QueryPairs | src/createWoopWidget.ts:9-17 | the query holds exactly seven pairs named appCode, assets, modules, networks, theme, buttonColor, logo, in that order |
| WoopWidget.Get | src/createWoopWidget.ts:9-17 | `URLSearchParams.get` on the query's pairs, which the source does not call; the per-parameter lemmas use it: a name is found exactly when some pair carries it, and what is found is the value of the first pair with that name |
| WoopWidget.AppCodeVerbatim | src/createWoopWidget.ts:10 | the appCode parameter is the configured code, unchanged |
| WoopWidget.AssetsParameter | src/createWoopWidget.ts:11 | no assets give `""`; a non-empty comma-free asset list is recovered by splitting the parameter on commas |
| WoopWidget.SerializedFlagParameters | src/createWoopWidget.ts:12-13 | an absent modules becomes `undefined` and an absent networks becomes `{}`; present JSON text passes through |
| WoopWidget.ThemeParameter | src/createWoopWidget.ts:14 | theme is `light` exactly when it is absent, empty or `light`; any other non-empty theme passes through |
| WoopWidget.ButtonColorParameter | src/createWoopWidget.ts:15 | buttonColor is `#4B6BFB` exactly when it is absent, empty or that colour; any other non-empty colour passes through |
| WoopWidget.LogoParameter | src/createWoopWidget.ts:16 | logo is `""` exactly when it is absent or empty, never `undefined`; a non-empty logo passes through |
| WoopWidget.IframeUrl | src/createWoopWidget.ts:8-19 | the URL starts with the trusted origin, then is the base URL followed by `?`, and the rest is the serialized query |
| WoopWidget.IframeUrlParses | src/createWoopWidget.ts:9-19 | the text after `?` parses back into the seven encoded pairs in order, provided the encoder never emits `&` or `=` |
| WoopWidget.FirstAccount | src/createWoopWidget.ts:50 | `accounts?.[0]` is present exactly when the reply is a non-empty list, and then it is the list's first entry |
| WoopWidget.Round | src/createWoopWidget.ts:37-83 | no provider means no event; `eth_accounts` is always requested first; `eth_chainId` is requested exactly when an address was found, and after `eth_accounts`; a single post, last, to the trusted origin, of type `WOOP_CONNECT`, carrying `accounts[0]` and the fetched chain id, happens exactly when both requests resolve and the frame has a window; rejections end the round; no event occurs twice in one round |
| WoopWidget.IsConnectRequest | src/createWoopWidget.ts:90-93 | a connect request, a trusted-origin message whose data has type `CONNECT_WALLET`, never has `null` or `undefined` data, so the destructuring of its `type` does not throw |
| WoopWidget.ListenerEvents | src/createWoopWidget.ts:89-96 | a message from any other origin, or of any other type, does nothing; a trusted `CONNECT_WALLET` message runs one full round |
| WoopWidget.RoundsAreNotCached | src/createWoopWidget.ts:37-60 | a second round requests `eth_accounts` again and posts only what its own replies give |
| WoopWidget.Widget.Create | src/createWoopWidget.ts:3-23 | the frame's source is the computed iframe URL, the widget has a provider exactly when `params.provider` is truthy, and nothing has been requested or posted yet |
| WoopWidget.Widget.SendWalletInfo | src/createWoopWidget.ts:37-83 | the log grows by exactly the events of one round |
| WoopWidget.Widget.OnLoad | src/createWoopWidget.ts:86 | the load event runs exactly one round |
| WoopWidget.Widget.OnMessage | src/createWoopWidget.ts:89-96 | the log grows by what the listener does for this message; a trusted message with null or undefined data rejects the listener's promise and does nothing else |

## Left out

- DOM work: creating and styling the iframe, clearing the container, and `appendChild`. Only the frame's `src` is kept.
- Event-loop plumbing: `addEventListener` and suspension at each `await`. The load and message triggers are explicit method calls, and each round runs to completion before the next one starts. Rounds that interleave at their `await` points are not modelled.
- The wallet provider: its answers are inputs to each round. The proxied provider object in the payload is foreign state. It is left out, and so are the capability flags forwarded in it.
- Delivery of `postMessage`: a `Post` event records the attempt, its address and chain id, and its target origin; not delivery. Under structured-clone rules, the function values in the real payload would make the call throw. That throw lands in the `catch` and changes nothing the model records.
- `JSON.stringify` of `modules` and `networks`: the configuration holds their JSON text, taken as opaque.
- Percent-encoding in `URLSearchParams`: the encoder is a parameter. The parser returns names and values still encoded.
- Reading `process.env`: the variable's value is an input, with `None` for unset. All `console.error` logging is left out.
- Text is made of Unicode scalar values, not UTF-16 code units.
- Account entries and the chain id are modelled as strings; a falsy first account is the empty string.
- `provider` is read once, when the widget is created. Later changes by the caller to the `params` object are not modelled.
- `WidgetInstance` (`destroy`, `updateConfig`) is declared in `src/types.ts` but never implemented, so it is not modelled.
