# Back-office client core, modelled in Dafny

This project models the logic core of a Next.js back-office application and
proves properties of that model. The application has two front ends (the main
app and the `bo/` back office) and shares one set of helpers. The core covers
the following:

- **Query strings.** `buildQueryParams` writes page, size, sort, order and
  filter through `URLSearchParams`. `getSearchParams` reads them back from a
  request URL. The form-urlencoded serializer and parser are modelled down to
  UTF-8 bytes and percent-escapes.
- **Route guard.** The `middleware` decision redirects a signed-in user away
  from the public pages and an anonymous user to `/login`. The model also
  covers the `config.matcher` exclusion pattern.
- **Server HTTP client.** `http` and its `get`/`post`/`put`/`delete`
  wrappers do the following:
  - compose the URL and its query;
  - merge headers through a Fetch `Headers` object, with case-insensitive
    names and the `set`/`append`/`get`/`forEach` rules;
  - add the `Accept-Language`, `Authorization` and `Content-Type` defaults;
  - encode the body;
  - map a response to its result or to an `ApiError`.
- **Browser API client.** `apiRequest` and `getHeaders` work with the stored
  token. On a 401 the client removes the token and sends the browser to the
  login page.
- **Login.** The `login` service validates its input, posts the credentials,
  stores the token and re-throws errors with their own messages. The mock
  `/api/auth` route handler is modelled too.
- **Validators.** The zod schemas for the user, login, profile-update
  (including its cross-field refinement), back-office login, product and
  product-search forms are modelled over a small model of zod's parsing.
  The form default values are checked against them.
- **Data tables.** Both `DataTable` components are modelled as the choices
  they render: the page count, the page buttons and the page each asks for,
  the empty-data placeholder, the filter and the sort indicators.
- **Sidebars.** Both `NavMain` sidebars are modelled: the initial open-menu
  map (built by loops), the toggle, and the active-item rule.
- **Coupon list cells.** The formatted cells of the coupon list are modelled:
  channels, Y/N labels, the periods and the link targets.

Layout:

| file | module | models |
|---|---|---|
| wrappers.dfy | `Wrappers` | `Option` |
| seqs.dfy | `Seqs` | `split`, `join`, `startsWith` on sequences |
| js.dfy | `Js` | JavaScript values, truthiness, `??`, `?.`, `String(x)` |
| utf8.dfy | `Utf8` | UTF-8 encoding and decoding (with replacement) |
| urlencoded.dfy | `UrlEncoded` | the form-urlencoded serializer/parser and the `SearchParams` class |
| headers.dfy | `FetchHeaders` | the Fetch `Headers` class |
| fetch.dfy | `Fetch` | requests, responses, JSON values, thrown values |
| query_params.dfy | `QueryParams` | lib/utils.ts |
| middleware.dfy | `Middleware` | middleware.ts |
| api_types.dfy | `ApiTypes` | src/types/api.ts (its `ApiResponse` and `ApiError` are identical to bo/types/api.ts) |
| http_client.dfy | `HttpClient` | lib/httpClient.ts |
| api_client.dfy | `ApiClient` | lib/apiClient.ts |
| login.dfy | `LoginService` | bo/services/auth/login.ts |
| auth_route.dfy | `AuthRoute` | app/api/auth/route.ts |
| zod.dfy | `Zod` | the zod features the schemas use |
| app_schema.dfy | `AppSchema` | lib/schema.ts |
| auth_schema.dfy | `AuthSchema` | lib/schema/auth.ts |
| product_schema.dfy | `ProductSchema`, `ProductListForm` | bo/lib/schema/product.ts and the search form of bo/app/products/list/page.tsx |
| data_table.dfy | `DataTable` | components/common/data-table/data-table.tsx |
| bo_data_table.dfy | `BoDataTable` | bo/components/common/data-table/data-table.tsx |
| nav_main.dfy | `NavMain` | components/common/sidebar/navMain.tsx |
| bo_nav_main.dfy | `BoNavMain` | bo/components/common/sidebar/navMain.tsx |
| benefit_columns.dfy | `BenefitColumns` | components/page/benefit/columns.tsx |

Several things the environment supplies become parameters of the model:

- the network, as a function from request to response;
- the browser, as a `Browser` object holding `localStorage` and
  `location.href`, or `null` on the server;
- environment variables and the `accessToken` cookie;
- the current path;
- the email test of `z.string().email()`.

Some behaviours of the code are worth knowing before reading the model:

- With `totalCount = 0` the page count is 0. On page 1 the "next" and "last"
  buttons therefore stay enabled, and "last" asks for page 0.
  `DataTable.EmptyTotalKeepsNextEnabled` and
  `BoDataTable.EmptyTotalKeepsNextEnabled` state this.
- The current page is never clamped to the page count. The buttons use
  whatever page they are given.
- In the main sidebar the second-level active flag (`isSubActive`) is computed
  but no class uses it. `NavMain.IsActive` is the rule at both levels.
  `NavMain.Render` highlights only top-level entries, because only they are
  styled with the flag.

## Model

| member | source | states |
|---|---|---|
| QueryParams.QueryPairs | lib/utils.ts:11-22 | definition, no contract: the pairs `buildQueryParams` appends, in order; its properties are `QueryPairsShape` and `LookupQueryPairs` |
| QueryParams.BuildQueryParams | lib/utils.ts:10-25 | the text is the serialization of the fixed pair list and holds no `?` or `#` |
| QueryParams.QueryPairsShape | lib/utils.ts:11-22 | `page` then `size` come first; `sort`/`order` appear iff sorting is non-empty, from `sorting[0]`, with `desc` iff `desc`; `q` appears last iff the filter is truthy; no name repeats |
| QueryParams.LookupQueryPairs | lib/utils.ts:11-22 | reading each name back from the pairs gives page, size, the first sort id and the filter, or nothing |
| QueryParams.GetSearchParams | lib/utils.ts:27-35 | a URL without `?` reads as four empty strings |
| QueryParams.GetSearchParamsBuilt | lib/utils.ts:27-35 | round trip: reading a built query back gives the page, size, first sort id (or `''`) and filter (or `''`) |
| QueryParams.DirectionIsLost | lib/utils.ts:27-35 | the sort direction does not survive the round trip |
| QueryParams.SerializeNoQueryMark | lib/utils.ts:24 | a serialized query never holds `?` or `#` |
| UrlEncoded.Serialize | lib/utils.ts:24 | definition, no contract: `toString()`, the urlencoded serializer over UTF-8 bytes; its properties are `ParseSerialize` and `SerializeBytesSafe` |
| UrlEncoded.Parse | lib/utils.ts:28 | definition, no contract: the urlencoded parser `new URLSearchParams(text)` runs; its properties are `ParseSerialize` and `ParseInitSerialize` |
| UrlEncoded.ParseSerialize | lib/utils.ts:24 | parsing the serialized bytes gives back every pair, in order |
| UrlEncoded.ParseInitSerialize | lib/utils.ts:28 | `new URLSearchParams(params.toString())` holds the same pairs |
| UrlEncoded.DecodeEncodeComponent | lib/utils.ts:12-21 | percent-decoding an encoded name or value gives it back |
| UrlEncoded.SerializeBytesSafe | lib/utils.ts:24 | the serialization is ASCII and holds no `?` or `#` |
| UrlEncoded.EncodeComponentSafe | lib/utils.ts:12-21 | an encoded name or value is ASCII and holds no raw `&`, `=`, `?` or `#` |
| UrlEncoded.Lookup | lib/utils.ts:30-33 | `get` finds nothing iff no pair has the name, else the value of the first pair with that name |
| UrlEncoded.SearchParams.Empty | lib/utils.ts:11 | a new `URLSearchParams` has no pairs |
| UrlEncoded.SearchParams.FromString | lib/utils.ts:28 | constructing from a string holds its parsed pairs |
| UrlEncoded.SearchParams.Append | lib/utils.ts:12 | `append` adds the pair at the end and changes nothing else |
| Utf8.Encode | lib/utils.ts:24 | every character gives at least one byte; `DecodeEncode` and `EncodeAppend` state the rest |
| Utf8.Decode | lib/utils.ts:28 | definition, no contract: UTF-8 decoding with replacement characters; its properties are `DecodeEncode` |
| Utf8.DecodeEncode | lib/utils.ts:24 | decoding the UTF-8 encoding of a string gives it back |
| Utf8.EncodeAppend | lib/utils.ts:24 | encoding distributes over concatenation |
| Seqs.SplitJoin | lib/utils.ts:28 | splitting a join of separator-free pieces gives the pieces back |
| Seqs.SplitFirst | lib/utils.ts:28 | the text before the first separator and the rest after it rebuild the input |
| Js.Coalesce | lib/httpClient.ts:85 | `a ?? b` is one of its operands, `a` whenever `a` is not null or undefined, and nullish only when both are |
| Js.Or | lib/httpClient.ts:70 | `a` or-else `b` is one of its operands, `a` whenever `a` is truthy, and falsy only when both are |
| Js.GetProperty | lib/httpClient.ts:85 | reading a property throws exactly on null and undefined; a defined result is the object's own field |
| Js.OptionalProperty | lib/httpClient.ts:70 | `v?.key` is the object's own field when it has one, and undefined for anything else, null and undefined included |
| Js.NatString | lib/utils.ts:12-13 | the digits of a natural number denote it in decimal and have no leading zero |
| Js.IntStringValue | lib/utils.ts:12-13 | `String(n)` is `-` for a negative number, then the decimal digits of the magnitude, which denote it, with no leading zero |
| Js.IntStringInjective | lib/utils.ts:12-13 | different integers give different `String(n)` texts |
| Middleware.Guard | middleware.ts:4-28 | a signed-in user on a public path goes to `/dashboard`; an anonymous user off one goes to `/login`; every other request passes |
| Middleware.IsPublicPath | middleware.ts:9-12 | definition, no contract: `publicPaths.some(startsWith)`; its properties are `PublicIffPrefix` and `LoginHelpIsPublic` |
| Middleware.PublicIffPrefix | middleware.ts:9-12 | a path is public iff it starts with `/login` or `/signup` |
| Middleware.LoginHelpIsPublic | middleware.ts:12 | prefix matching makes `/login-help` public |
| Middleware.RedirectTargets | middleware.ts:15-24 | `/login` is public and `/dashboard` is not |
| Middleware.EmptyCookieIsNoSession | middleware.ts:5-21 | an empty cookie value decides like a missing cookie |
| Middleware.NoRedirectLoop | middleware.ts:14-24 | the page a redirect targets passes the guard with the same cookie |
| Middleware.Matches | middleware.ts:38 | definition, no contract: the whole path matches the matcher pattern; its properties are `MatcherSkips` and `MatcherRuns` |
| Middleware.MatcherSkips | middleware.ts:38 | every path starting with `/api`, `/_next/static` or `/_next/image` is skipped, whatever follows (`/apis` too), and so is `/favicon`, any one character but a line terminator, `ico`, then anything |
| Middleware.MatcherRuns | middleware.ts:38 | the dashboard, login and root paths run the middleware |
| FetchHeaders.Values | lib/httpClient.ts:35-49 | a name has no values iff no entry matches it case-insensitively |
| FetchHeaders.GetValue | lib/httpClient.ts:40-43 | `get`/`has` find a value iff some entry matches the name case-insensitively |
| FetchHeaders.RemoveName | lib/httpClient.ts:37 | removing a name leaves no entry matching it |
| FetchHeaders.Headers.constructor | lib/httpClient.ts:35 | `new Headers(init)` appends every init entry in order |
| FetchHeaders.Headers.Set | lib/httpClient.ts:37 | `set` replaces the first matching entry and drops the others, or appends |
| FetchHeaders.ValuesUpToCase | lib/httpClient.ts:40 | lookups do not depend on the case of the name |
| FetchHeaders.ValuesAppend | lib/httpClient.ts:35 | the values of a concatenation are the values of each part, in order |
| FetchHeaders.ValuesRemoveName | lib/httpClient.ts:37 | removing one name changes the values of no other name |
| FetchHeaders.GetAfterSet | lib/httpClient.ts:37-57 | after `set(name, v)` the name reads `v` and every other name is unchanged |
| FetchHeaders.ValuesFilled | lib/httpClient.ts:35 | a constructed object reads like its init list |
| FetchHeaders.GetAfterSetAll | lib/httpClient.ts:37 | after setting a list of pairs, a name reads its last pair's value if any, else the old value |
| FetchHeaders.LastValueCombine | lib/httpClient.ts:37 | `forEach` on combined entries hands each name its joined value |
| FetchHeaders.LowerCaseIdempotent | lib/httpClient.ts:37 | lower-casing twice is lower-casing once |
| ApiTypes.EnvelopeJson | src/types/api.ts:5-10 | the envelope as JSON has exactly `resultCode`, `resultMessage`, `result` and, when present, `data`, each reading back its value |
| ApiTypes.ApiError.constructor | src/types/api.ts:19-24 | name `ApiError`, the given message and status, and data `null` when omitted |
| ApiTypes.PaginatedJson | src/types/api.ts:30-43 | a paginated response as JSON has exactly `paginationInfo` and `result`; `paginationInfo` has exactly `page`, `size` and `totalCount`; each reads back its value |
| HttpClient.RequestUrl | lib/httpClient.ts:26-33 | definition, no contract: the URL `http` requests; its properties are `BuildUrl`, `RequestUrlPlain` and `RequestUrlQuery` |
| HttpClient.BaseUrl | lib/httpClient.ts:26 | definition, no contract: the endpoint for an external call, else the host then the endpoint; its properties are `RequestUrlPlain` and `RequestUrlQuery` |
| HttpClient.BuildUrl | lib/httpClient.ts:26-33 | the URL the loop builds is `RequestUrl` |
| HttpClient.RequestUrlPlain | lib/httpClient.ts:26 | without GET params the URL is the endpoint when external, else host + endpoint (`undefined` + endpoint when the host is unset) (collects what the definition says; an unfolding, not a proof) |
| HttpClient.RequestUrlQuery | lib/httpClient.ts:27-33 | with GET params the URL splits at its one `?` into the base and a query that parses back to the params |
| HttpClient.SplitQueryUrl | lib/httpClient.ts:32 | `base?query` splits into exactly `[base, query]` when neither holds `?` |
| HttpClient.QueryHasNoMark | lib/httpClient.ts:32 | the appended query never adds a second `?` |
| HttpClient.MergedHeaders | lib/httpClient.ts:35-38 | definition, no contract: the custom headers with the override set over them; its properties are `MergeHeaders` and `MergedHeadersPrecedence` |
| HttpClient.MergeHeaders | lib/httpClient.ts:35-38 | the merged object holds the custom headers with each override name set to its override value |
| HttpClient.MergedHeadersPrecedence | lib/httpClient.ts:35-38 | a name reads its override value when overridden, else its custom value |
| HttpClient.AddDefaultHeaders | lib/httpClient.ts:40-49 | the language default, then the bearer token, are added only when missing |
| HttpClient.WithLanguage | lib/httpClient.ts:40 | definition, no contract: the language default; its properties are `WithLanguageGet` |
| HttpClient.WithAuthorization | lib/httpClient.ts:43-49 | definition, no contract: the bearer default; its properties are `WithAuthorizationGet` |
| HttpClient.WithContentType | lib/httpClient.ts:52-58 | definition, no contract: the JSON content type for a record body; its properties are `WithContentTypeGet` |
| HttpClient.EncodeBody | lib/httpClient.ts:51-59 | form data passes as is; a record becomes JSON text and sets `Content-Type`; no body is `null` |
| HttpClient.WithLanguageGet | lib/httpClient.ts:40 | `Accept-Language` reads `ko` unless already set; other names are unchanged |
| HttpClient.WithAuthorizationGet | lib/httpClient.ts:43-49 | `Authorization` reads `Bearer <token>` when unset and the cookie is truthy; other names are unchanged |
| HttpClient.WithContentTypeGet | lib/httpClient.ts:52-58 | a record body forces `Content-Type: application/json`, even over a caller's value |
| HttpClient.RequestHeaders | lib/httpClient.ts:35-58 | definition, no contract: the headers `http` sends; its properties are `RequestHeadersPrecedence` |
| HttpClient.RequestHeadersPrecedence | lib/httpClient.ts:35-58 | each header the request sends, by precedence: body type, then override, custom, and the defaults |
| HttpClient.ResponseOutcome | lib/httpClient.ts:68-85 | an `ApiError` is thrown iff the status is not 2xx, carrying the status and JSON data |
| HttpClient.Settle | lib/httpClient.ts:61-85 | a rejected fetch re-throws its reason; an error's data is always JSON |
| HttpClient.FailedResponse | lib/httpClient.ts:68-71 | a failed status throws with its status, the parsed body or `null`, and the default message when the body does not parse |
| HttpClient.FailedEnvelope | lib/httpClient.ts:69-70 | a failed envelope's message is its `resultMessage`, or the default when that is empty |
| HttpClient.NoContent | lib/httpClient.ts:74-76 | a 204 returns `null` without reading the body |
| HttpClient.UnwrapEnvelope | lib/httpClient.ts:85 | a success returns `result`, else `data`, else the whole envelope |
| HttpClient.NullBodyThrows | lib/httpClient.ts:78-85 | a success whose body is JSON `null` throws a TypeError, and no other body does |
| HttpClient.RequestOf | lib/httpClient.ts:24-66 | definition, no contract: the request `http` hands to `fetch`; its properties are `Http` |
| HttpClient.Http | lib/httpClient.ts:16-86 | the request sent is `RequestOf` the inputs; the outcome is the settled response; an `ApiError` is built iff one is thrown |
| HttpClient.Get | lib/httpClient.ts:89-90 | a GET with no body and the given options |
| HttpClient.Post | lib/httpClient.ts:91-96 | a POST with the body |
| HttpClient.Put | lib/httpClient.ts:97-98 | a PUT with the record as JSON |
| HttpClient.Delete | lib/httpClient.ts:99-100 | a DELETE with no body |
| HttpClient.SetAllSnoc | lib/httpClient.ts:37 | setting one more pair is one more `set` |
| HttpClient.SetAllPrefix | lib/httpClient.ts:37 | the `forEach` up to pair j is the one before it followed by setting pair j |
| ApiClient.DefaultHeadersShape | lib/apiClient.ts:4-17 | `Content-Type: application/json`, plus `Authorization: Bearer <token>` in a browser with a non-empty token |
| ApiClient.BaseUrl | lib/apiClient.ts:2 | definition, no contract: `baseURL`; its properties are `BaseUrlIsOr` |
| ApiClient.BaseUrlIsOr | lib/apiClient.ts:2 | the base URL is the JavaScript logical OR (`Js.Or`) of the variable (`undefined` when unset) and the fallback, so an empty variable gives the fallback |
| ApiClient.GetHeaders | lib/apiClient.ts:4-17 | the headers name `Content-Type` as JSON, carry `Authorization` exactly with a stored token, and have distinct keys |
| ApiClient.AssignGet | lib/apiClient.ts:12 | assigning a key reads back its value, leaves others alone and keeps keys distinct |
| ApiClient.AssignKeys | lib/apiClient.ts:12 | assigning adds no key but the assigned one |
| ApiClient.Spread | lib/apiClient.ts:22-25 | definition, no contract: `{...rec, ...more}` on plain objects; its properties are `SpreadGet` |
| ApiClient.SpreadGet | lib/apiClient.ts:22-25 | in `{...a, ...b}` a key reads `b`'s value when `b` has it, else `a`'s |
| ApiClient.RecordGetSome | lib/apiClient.ts:22-25 | a record has a key iff some entry names it |
| ApiClient.NotInRest | lib/apiClient.ts:22-25 | a distinct record's first key is not in its tail |
| ApiClient.CallFor | lib/apiClient.ts:20-26 | definition, no contract: the call `apiRequest` makes; its properties are `SentHeaders` and `ApiRequest` |
| ApiClient.SentHeaders | lib/apiClient.ts:20-26 | each sent header is the caller's, else the JSON content type, else the bearer token, else absent |
| ApiClient.CaseVariantNotOverridden | lib/apiClient.ts:22-25 | a caller's `content-type` does not replace `Content-Type`; the request then carries both values |
| ApiClient.SettleCall | lib/apiClient.ts:28-38 | definition, no contract: how `apiRequest` settles; its properties are `SettleCallRules` |
| ApiClient.SettleCallRules | lib/apiClient.ts:28-38 | a non-2xx status fails with `HTTP error! status: <n>`; a success returns the parsed body as is |
| ApiClient.ApiRequest | lib/apiClient.ts:19-39 | the call sent is the base URL + endpoint with merged headers; a 401 in a browser removes the token and moves to `/login`; nothing else changes |
| LoginService.Login | bo/services/auth/login.ts:13-39 | invalid input fails before any request; valid input posts the credentials; the token is stored exactly when truthy, after a 401's removal; after a 401 the browser is at `/login`, otherwise where it was |
| LoginService.Rethrown | bo/services/auth/login.ts:30-38 | definition, no contract: the catch block; its properties are `RethrownMessages` |
| LoginService.LoginSettle | bo/services/auth/login.ts:17-38 | definition, no contract: what `login` makes of the settled request; its properties are `UnauthorizedLogin` and `SuccessfulLogin` |
| LoginService.Credentials | bo/services/auth/login.ts:19-22 | definition, no contract: the request body; its properties are `CredentialsOnly` |
| LoginService.RethrownMessages | bo/services/auth/login.ts:30-38 | validation errors read `입력 형식이 올바르지 않습니다.`; other errors get `로그인 실패: ` before their message; others the unknown-failure message |
| LoginService.UnauthorizedLogin | bo/services/auth/login.ts:17-35 | a 401 fails with `로그인 실패: HTTP error! status: 401` and stores no token |
| LoginService.SuccessfulLogin | bo/services/auth/login.ts:25-29 | a success returns the response; its token is stored iff truthy; on the server a truthy token fails |
| LoginService.CredentialsOnly | bo/services/auth/login.ts:19-22 | the body holds exactly `userName` and `password` from the input |
| AuthRoute.Post | app/api/auth/route.ts:3-33 | the status is 200, 400, 401 or 500; 200 exactly for a JSON body holding the test email and password, with the success body echoing that email |
| AuthRoute.PostStatus | app/api/auth/route.ts:3-33 | a body that does not parse, or is `null`, gives 500; a missing email or password 400; the test account 200; any other 401 |
| AuthRoute.PostBodies | app/api/auth/route.ts:9-32 | each status comes with its error message, and no other status occurs |
| AuthRoute.SuccessfulLogin | app/api/auth/route.ts:14-26 | the test account gets the success message and user 1 with its email |
| AuthRoute.Get | app/api/auth/route.ts:35-37 | GET answers 200, and its answer differs from every answer POST can give |
| Zod.Parse | lib/schema.ts:4-12 | a parse that aborts has at least one issue |
| Zod.ParseShape | lib/schema.ts:4-12 | an object parses to an object; an abort has an issue |
| Zod.CheckIssues | lib/schema.ts:6 | a check yields at most one issue |
| Zod.Prefix | lib/schema.ts:4-12 | nesting keeps the number of issues |
| Zod.StringIssuesEmpty | lib/schema.ts:6-8 | a string has no issue iff every check passes |
| Zod.ShapeSuccess | lib/schema.ts:4-12 | an object passes iff every key of its shape passes |
| Zod.ShapeStep | lib/schema.ts:4-12 | an object passes from key `i` iff key `i` and the rest pass |
| Zod.ShapeOutput | lib/schema.ts:4-12 | the output keeps only shape keys, each holding its parsed value unless undefined and absent |
| Zod.StringSchemaSuccess | lib/schema.ts:6-8 | a string schema passes exactly the strings passing all checks |
| Zod.OptionalStringSchema | lib/schema.ts:23-32 | an optional string passes `undefined` and the passing strings, and returns its input |
| Zod.OneCheck | lib/schema.ts:6 | a one-check string fails with that check's issue |
| Zod.PrefixOne | lib/schema.ts:4-12 | a nested issue is prefixed with its key |
| AppSchema.UserFields | lib/schema.ts:4-12 | what each user key accepts alone |
| AppSchema.UserSchemaAccepts | lib/schema.ts:4-12 | `userSchema` accepts exactly: optional number id, name of 2+, email, password of 6+, role `user`/`admin` or absent, optional dates |
| AppSchema.UserRoleDefault | lib/schema.ts:9 | a missing role comes out `user`; a given one is kept |
| AppSchema.LoginSchemaAccepts | lib/schema.ts:15-18 | `loginSchema` accepts exactly an email and a password of 6+ |
| AppSchema.ProfileFieldFacts | lib/schema.ts:22-33 | what each profile key accepts alone, and when it aborts |
| AppSchema.ProfileFieldsSuccess | lib/schema.ts:22-33 | an object passes the profile shape iff every key is absent or meets its bound |
| AppSchema.ProfileFieldsAborted | lib/schema.ts:22-33 | an object does not abort iff every key is absent or a string |
| AppSchema.ProfileFieldsParse | lib/schema.ts:22-33 | the fields pass iff each is absent or meets its bound; no abort iff each is absent or a string |
| AppSchema.ProfileFieldsOutput | lib/schema.ts:22-33 | well-typed fields are read back unchanged |
| AppSchema.ProfileUpdateAccepts | lib/schema.ts:21-45 | the schema accepts exactly valid fields where a truthy new password comes with a truthy current one |
| AppSchema.RefinementReadsInput | lib/schema.ts:34-40 | the refinement sees the input's own fields |
| AppSchema.ProfileRefinementIssue | lib/schema.ts:34-45 | the refinement's issue is added at `currentPassword` with its message, after any length issues |
| AppSchema.NoNewPasswordNoRefinement | lib/schema.ts:36-39 | without a new password only the field bounds decide |
| AuthSchema.LoginSchemaAccepts | lib/schema/auth.ts:3-7 | accepts exactly a non-empty user name, a password of 4+ and an optional boolean `saveId` |
| AuthSchema.LoginSchemaOutput | lib/schema/auth.ts:3-7 | a valid input's user name and password are read back unchanged |
| AuthSchema.ShortPasswordRejected | lib/schema/auth.ts:5 | a short password gives exactly one issue, at `password`, with the schema's message |
| AuthSchema.FormDefaultsRejected | bo/components/page/auth/loginForm.tsx:24-28 | the login form's empty defaults fail on both fields with their messages |
| ProductSchema.FlagsAccept | bo/lib/schema/product.ts:6-10 | a flag group needs all three booleans |
| ProductSchema.KeywordAccepts | bo/lib/schema/product.ts:20-24 | the keyword is absent or 1 to 50 characters; `''` fails |
| ProductSchema.ProductFields | bo/lib/schema/product.ts:3-25 | what each product key accepts alone |
| ProductSchema.ProductSchemaAccepts | bo/lib/schema/product.ts:3-25 | accepts exactly non-empty categories and dates, two flag groups, strings, and a valid keyword |
| ProductSchema.CreateDefaultsRejected | bo/app/products/create/page.tsx:26-36 | the creation page's defaults fail: both categories and the empty keyword |
| ProductListForm.KeywordAccepts | bo/app/products/list/page.tsx:53 | the search keyword is absent or at most 50 characters; `''` passes |
| ProductListForm.FormFields | bo/app/products/list/page.tsx:36-54 | what each search-form key accepts alone |
| ProductListForm.FormSchemaAccepts | bo/app/products/list/page.tsx:36-54 | accepts exactly string fields, two flag groups and a valid keyword |
| ProductListForm.DefaultsAccepted | bo/app/products/list/page.tsx:61-71 | the search form's defaults pass |
| DataTable.PageCount | components/common/data-table/data-table.tsx:57 | definition, no contract: `Math.ceil(totalCount / pageSize)` for a positive page size; its properties are `PageCountIsCeiling` and `PageCountExact` |
| DataTable.SortOf | components/common/data-table/data-table.tsx:88 | definition, no contract: `getIsSorted` read from the sorting prop; its properties are `SortOfFirst` |
| DataTable.BodyOf | components/common/data-table/data-table.tsx:100-118 | definition, no contract: the table body; its properties are `BodyRule` |
| DataTable.PaginationOf | components/common/data-table/data-table.tsx:122-157 | definition, no contract: the page label and the four buttons; its properties are `ButtonRules` and `EmptyTotalKeepsNextEnabled` |
| DataTable.Render | components/common/data-table/data-table.tsx:64-160 | definition, no contract: what the component renders; its properties are `Defaults` and `Visibility` |
| DataTable.Click | components/common/data-table/data-table.tsx:60-62 | definition, no contract: the page a button click reports; its properties are `NoHandlerNoClick` |
| DataTable.PageCountIsCeiling | components/common/data-table/data-table.tsx:57 | the page count is the least number of pages holding every row |
| DataTable.PageCountExact | components/common/data-table/data-table.tsx:125 | `k` full pages count as `k` |
| DataTable.Defaults | components/common/data-table/data-table.tsx:35-43 | omitted props default to page 1, no rows, pages of 10, no sorting, filter and pagination shown, not loading (collects what the definition says; an unfolding, not a proof) |
| DataTable.ButtonRules | components/common/data-table/data-table.tsx:124-154 | first/prev disabled iff page 1, next/last iff the last page; targets 1, page-1, page+1, page count (collects what the definition says; an unfolding, not a proof) |
| DataTable.EmptyTotalKeepsNextEnabled | components/common/data-table/data-table.tsx:139-154 | with no rows, next and last stay enabled on page 1 and last asks for page 0 |
| DataTable.NoHandlerNoClick | components/common/data-table/data-table.tsx:60-62 | without `onPageChange` nothing is reported; with it, exactly enabled buttons report (collects what the definition says; an unfolding, not a proof) |
| DataTable.BodyRule | components/common/data-table/data-table.tsx:100-118 | empty data gives one placeholder row spanning every column; other data the row model's rows (collects what the definition says; an unfolding, not a proof) |
| DataTable.Visibility | components/common/data-table/data-table.tsx:66-89 | the filter shows iff asked and is disabled iff loading; pagination shows iff asked; headers click iff sortable and highlight iff sorted |
| DataTable.SortOfFirst | components/common/data-table/data-table.tsx:88 | a column's sort is its first sorting entry's direction, unsorted iff none names it |
| DataTable.MiddlePage | components/common/data-table/data-table.tsx:125-151 | 45 rows in tens on page 2: five pages, all buttons enabled, neighbours 1 and 3 |
| BoDataTable.Indicator | bo/components/common/data-table/data-table.tsx:109-112 | a marker shows iff the column is sorted |
| BoDataTable.PaginationOf | bo/components/common/data-table/data-table.tsx:149-173 | definition, no contract: the page label and the two buttons; its properties are `ButtonRules` and `EmptyTotalKeepsNextEnabled` |
| BoDataTable.Render | bo/components/common/data-table/data-table.tsx:72-175 | definition, no contract: what the component renders; its properties are `HeaderRules`, `SortedColumn` and `SameLayout` |
| BoDataTable.HeaderRules | bo/components/common/data-table/data-table.tsx:94-112 | headers click iff sortable, highlight iff marked, 🔼 ascending, 🔽 descending (collects what the definition says; an unfolding, not a proof) |
| BoDataTable.SortedColumn | bo/components/common/data-table/data-table.tsx:100-112 | a descending single sort marks its column 🔽 and no other |
| BoDataTable.ButtonRules | bo/components/common/data-table/data-table.tsx:149-171 | prev disabled iff page 1, next iff the last page; they ask for the neighbours |
| BoDataTable.SameLayout | bo/components/common/data-table/data-table.tsx:74-144 | body, filter and pagination choices match the main table |
| BoDataTable.EmptyTotalKeepsNextEnabled | bo/components/common/data-table/data-table.tsx:163-167 | with no rows next stays enabled on page 1 |
| NavMain.InitialOpenMenus | components/common/sidebar/navMain.tsx:34-43 | the keys are exactly the top- and second-level urls, each open iff the path starts with it |
| NavMain.Toggle | components/common/sidebar/navMain.tsx:45-50 | adds the key, negates it (a missing key becomes open), keeps every other key |
| NavMain.ToggleFlipsOne | components/common/sidebar/navMain.tsx:45-50 | toggling flips the toggled menu and no other |
| NavMain.ToggleMissing | components/common/sidebar/navMain.tsx:48 | toggling a missing key opens it |
| NavMain.ToggleTwice | components/common/sidebar/navMain.tsx:45-50 | toggling a present key twice restores the map |
| NavMain.ToggleMissingTwice | components/common/sidebar/navMain.tsx:45-50 | toggling a missing key twice leaves it present and closed |
| NavMain.MenuUrls | components/common/sidebar/navMain.tsx:36-41 | definition, no contract: the keys the initial map receives; its properties are `MenuUrlsMembers` |
| NavMain.UrlsMembers | components/common/sidebar/navMain.tsx:38-40 | a url is among a list's urls iff some item has it |
| NavMain.MenuUrlsMembers | components/common/sidebar/navMain.tsx:36-41 | the initial keys are the top-level urls and their children's, not the third level's |
| NavMain.SecondLevelKey | components/common/sidebar/navMain.tsx:39 | each second-level item starts open iff the path starts with its url |
| NavMain.EmptyUrlStartsOpen | components/common/sidebar/navMain.tsx:37-39 | a menu with url `''` always starts open |
| NavMain.IsActive | components/common/sidebar/navMain.tsx:58-59 | definition, no contract: `isParentActive`; its properties are `ActiveRule`, `LeafNotActiveBelow` and `ParentActiveBelow` |
| NavMain.ActiveRule | components/common/sidebar/navMain.tsx:58-59 | a parent is active iff the path starts with its url; a leaf, also one with an empty list, iff it equals it (collects what the definition says; an unfolding, not a proof) |
| NavMain.LeafNotActiveBelow | components/common/sidebar/navMain.tsx:59 | a leaf is not active below its own url |
| NavMain.ParentActiveBelow | components/common/sidebar/navMain.tsx:59 | a parent is active on every path below its url |
| NavMain.ItemViewOf | components/common/sidebar/navMain.tsx:56-101 | definition, no contract: one rendered entry; its properties are `RenderRules` |
| NavMain.Render | components/common/sidebar/navMain.tsx:56-174 | one entry per item, in order, with its url |
| NavMain.RenderRules | components/common/sidebar/navMain.tsx:56-101 | collapsible iff children, highlighted by the rule, open iff the key is true, likewise for second-level menus |
| NavMain.OpenAfterToggle | components/common/sidebar/navMain.tsx:34-66 | a top-level menu starts open iff the path is below it, and one toggle inverts that |
| BoNavMain.InitialOpenMenus | bo/components/common/sidebar/navMain.tsx:44-50 | the keys are exactly the top-level urls, each open iff the path starts with it |
| BoNavMain.TopUrlsMembers | bo/components/common/sidebar/navMain.tsx:46-48 | a url is a key iff some top-level item has it |
| BoNavMain.SubUrlHasNoKey | bo/components/common/sidebar/navMain.tsx:44-50 | a second-level url has no key and reads closed |
| BoNavMain.OpenAfterToggle | bo/components/common/sidebar/navMain.tsx:44-75 | a menu starts open iff the path is below it, and the toggle inverts that |
| BoNavMain.IsActive | bo/components/common/sidebar/navMain.tsx:65-68 | definition, no contract: `isParentActive`; its properties are `ActiveLikeMain` |
| BoNavMain.ItemViewOf | bo/components/common/sidebar/navMain.tsx:63-141 | definition, no contract: one rendered entry; its properties are `RenderRules` and `SubLinksNeverActive` |
| BoNavMain.ActiveLikeMain | bo/components/common/sidebar/navMain.tsx:65-68 | the active rule is the main sidebar's |
| BoNavMain.SubLinksNeverActive | bo/components/common/sidebar/navMain.tsx:102-119 | second-level links are never highlighted, even on their own page |
| BoNavMain.Render | bo/components/common/sidebar/navMain.tsx:63-144 | one entry per item, in order, with its url |
| BoNavMain.RenderRules | bo/components/common/sidebar/navMain.tsx:63-141 | collapsible iff children, highlighted by the rule, open iff the key is true |
| BenefitColumns.ChannelCell | components/page/benefit/columns.tsx:46-51 | app and store channels, each iff its flag is exactly `Y`, app first, joined with `, `; `''` when neither |
| BenefitColumns.DisplayCell | components/page/benefit/columns.tsx:57 | definition, no contract: the display cell; its properties are `OnlyExactYes` |
| BenefitColumns.IssuancePeriodCell | components/page/benefit/columns.tsx:62 | definition, no contract: the issuance period cell; its properties are `IssuancePeriodHalves` |
| BenefitColumns.IssueStatusCell | components/page/benefit/columns.tsx:83 | definition, no contract: the issue status cell; its properties are `OnlyExactYes` |
| BenefitColumns.ForceTerminateCell | components/page/benefit/columns.tsx:89 | definition, no contract: the forced termination cell; its properties are `OnlyExactYes` |
| BenefitColumns.OnlyExactYes | components/page/benefit/columns.tsx:54-90 | each Y/N cell (display, issue status, forced termination) gives its negative text for every value other than the string `Y`; `y`, `true` and a missing field included |
| BenefitColumns.UsagePeriodCell | components/page/benefit/columns.tsx:67-78 | definition, no contract: the usage period cell; its properties are `UsagePeriodRules` and `SevenDays` |
| BenefitColumns.UsagePeriodRules | components/page/benefit/columns.tsx:67-78 | `10` gives the issuance period, `20` the days in `발급 후 …일 이내`, `30` the code name, anything else (numeric 10 too) `-` |
| BenefitColumns.SevenDays | components/page/benefit/columns.tsx:72 | 7 days reads `발급 후 7일 이내` |
| BenefitColumns.IssuancePeriodHalves | components/page/benefit/columns.tsx:62 | the period is the start, ` ~ `, then the end |
| BenefitColumns.DetailHref | components/page/benefit/columns.tsx:33 | definition, no contract: the detail link; its properties are `HrefsCarryId` and `HrefExamples` |
| BenefitColumns.PublishHref | components/page/benefit/columns.tsx:95 | definition, no contract: the issuance-history link; its properties are `HrefsCarryId` |
| BenefitColumns.HrefsCarryId | components/page/benefit/columns.tsx:33-95 | the detail link is the prefix then the id; the publish link ends in the id |
| BenefitColumns.HrefExamples | components/page/benefit/columns.tsx:33 | id 42 links to `/benefits/detail/42`; a missing id to `/benefits/detail/undefined` |
| BenefitColumns.SelectColumnFixed | components/page/benefit/columns.tsx:11-29 | only the select column turns sorting and hiding off, so only its header takes no click |
| BenefitColumns.TableColumns | components/page/benefit/columns.tsx:10-110 | definition, no contract: the columns as the data table sees them; its properties are `SelectColumnFixed` |

## Left out

- Floating point: numbers are integers. `Math.ceil` is exact integer ceiling, `String(n)` covers integers only, and NaN/Infinity do not occur.
- DataTable.PageCountIsCeiling: requires a positive page size; `pageSize = 0` (an infinite or NaN page count in the code) is not modelled.
- The sort order of `Headers.forEach`: entries are visited in first-occurrence order, not sorted by name. Only which value each name gets is stated.
- `set-cookie` handling and header value normalisation (whitespace trimming, forbidden names) in `Headers`.
- The `restOptions` passthrough of `http` (cache, credentials, signal): they are forwarded to `fetch` unchanged and have no logic of their own.
- The exact text of `JSON.stringify`: a JSON body is kept as the value it encodes.
- `HeadersInit` given to `http` as a `Headers` object: the custom and override headers passed to `new Headers(...)` are an ordered list of pairs, which covers the plain-object and array forms.
- ApiClient.ApiRequest: models only a plain-object `options.headers`. Spreading a `Headers` object adds no key, and spreading an array adds the keys `"0"`, `"1"`, and so on; neither case is modelled.
- TanStack Table internals: the row model, global filtering, `toggleSorting` and selection are parameters or left out. The sort state of a column is read from the `sorting` prop only.
- React rendering, class names, icons, React Query and the `onSortingChange` callback. Only the choices the components make are modelled.
- I/O: the network, `localStorage`, `window.location`, cookies (`cookies-next`), environment variables and `console` become parameters or fields, as listed above.
- Zod.CheckIssues: the email check is a parameter, since zod's regular expression is not modelled. Zod's own default messages are `None`, not their text.
- UTF-16: string lengths count code points, not UTF-16 code units. `min`/`max` differ from zod's only for characters outside the Basic Multilingual Plane.
- BenefitColumns.UsagePeriodRules: a field that React would render from an object or array is kept as the raw value (`FieldValue`), not as text. `CouponData` (types/benefit) is not part of this model, so each field is any JSON value or missing.
- The `couponStatus` button only logs to the console and is left out.
- Concurrency: the asynchronous steps run in order, as the `await`s in the code make them.
- Middleware.Matches: the `config.matcher` entry is modelled as the bare regular expression applied to the raw pathname. Next.js compiles it through path-to-regexp and also applies it to the `/_next/data/<build>/….json` form of each page; neither is modelled.
- HttpClient.RequestUrl: the GET parameters are an ordered list the caller supplies. `Object.entries` visits integer-like keys first, in ascending order, whatever order they were inserted in; that key order is not modelled.
