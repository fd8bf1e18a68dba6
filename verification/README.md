# checkout-sdk-python HTTP client — a Dafny model

This project models the decision procedures inside the HTTP client of the
Checkout.com Python SDK (`checkout_sdk/http_client.py`). Around each request the
client:

- rewrites the keys of the request body from snake_case to camelCase, recursing
  through nested mappings only;
- builds the header set from the default `user-agent` plus `authorization` set to
  the secret key;
- passes URL, headers and body through an interceptor hook (identity by default);
- sends a POST when the resulting body is truthy and a GET otherwise;
- turns the transport's answer into a response, or into a typed error chosen by
  the HTTP status.

Modules:

- `Wrappers` (`wrappers.dfy`): `Option`.
- `OrderedMap` (`ordered_map.dfy`): string-keyed dictionaries as ordered entry
  sequences with Python dict semantics. Assigning an existing key replaces its
  value in place, and assigning a new key appends it. Lookup reads the last entry
  with the key, so a duplicated key reads as last-write-wins.
- `CamelCase` (`camel_case.dfy`): the substitution of `_([a-z])` by the
  upper-cased letter. `ToCamel` is the recursive definition and `Substitute` is
  the left-to-right scan a regular-expression engine performs. The two are
  proved equal.
- `JsonValue` (`json_value.dfy`): the `Json` datatype (`Null` also stands for
  Python's `None`) and the recursive key conversion of `_convert_json`.
- `HttpClient` (`http_client.dfy`): configuration, headers, interceptor, request
  shaping, status-to-error dispatch and the outcome of one call.

`post` does not always send a POST. Line 62 picks the method from the
truthiness of the body the interceptor returns, so `post(path, {})` goes out as
a GET (`PostEmptyIsGet`).

The error dispatch at lines 77-87 fails for any error status its table does not
list, such as 403, 418 or 503 (see "## Findings"). `DispatchAsWritten` and
`CompleteAsWritten` model that code as written. `KindOf` and `Complete` give
such a status the generic `ApiError`, which is what the table's default is
evidently meant to do, and the rest of the model uses them.

## Model

| member | source | states |
|---|---|---|
| OrderedMap.Put | checkout_sdk/http_client.py:106 | dict assignment adds one entry exactly when the key is new (otherwise the size is unchanged) and keeps distinct keys distinct |
| OrderedMap.PutGet | checkout_sdk/http_client.py:106 | after an assignment the key reads the new value and every other key reads what it read before |
| OrderedMap.PutKeys | checkout_sdk/http_client.py:106 | an assignment adds its key to the key set and removes none |
| OrderedMap.PutShape | checkout_sdk/http_client.py:106 | an assignment keeps every existing key in its place and changes at most its own key's entry. A new key is appended at the end |
| OrderedMap.Get | checkout_sdk/http_client.py:88-91 | dict lookup: nothing exactly when the key is absent, otherwise the value of the last entry carrying the key (a repeated key in parsed JSON reads as last-write-wins) |
| CamelCase.ToCamel | checkout_sdk/http_client.py:100-101 | the converted key is never longer than the key, and it is empty only for an empty key |
| CamelCase.ToCamelLength | checkout_sdk/http_client.py:100-101 | the converted key is shorter than the key by exactly the number of `_[a-z]` occurrences |
| CamelCase.ToCamelUnchanged | checkout_sdk/http_client.py:100-101 | a key with no `_[a-z]` occurrence is returned unchanged |
| CamelCase.CountMatchesZero | checkout_sdk/http_client.py:12 | a key has zero pattern occurrences exactly when no position holds `_` followed by `[a-z]` |
| CamelCase.ToCamelNoMatch | checkout_sdk/http_client.py:101 | a converted key contains no `_` immediately followed by a lower-case letter |
| CamelCase.ToCamelIdempotent | checkout_sdk/http_client.py:101 | converting a converted key changes nothing |
| CamelCase.ToCamelFixedPoint | checkout_sdk/http_client.py:100-101 | a key is returned unchanged if and only if it contains no `_[a-z]` |
| CamelCase.ToCamelKeep | checkout_sdk/http_client.py:101 | a character that does not start `_[a-z]` is kept in front of the conversion of the rest |
| CamelCase.ToCamelMatch | checkout_sdk/http_client.py:101 | `_` followed by a lower-case letter becomes that letter upper-cased, in front of the conversion of the rest |
| CamelCase.ToCamelAppend | checkout_sdk/http_client.py:101 | the substitution is global and local: converting `a + b` is converting `a` and `b` separately, unless the cut splits a `_` from its letter |
| CamelCase.Substitute | checkout_sdk/http_client.py:101 | one left-to-right scan that replaces each `_[a-z]` and skips past it computes exactly the recursive conversion, and leaves no match behind |
| CamelCase.ToCamelExample | checkout_sdk/http_client.py:100-101 | `foo_bar_baz` (written as `foo` followed by `_bar_baz`) becomes `fooBarBaz` |
| CamelCase.ToCamelKeepsOtherUnderscores | checkout_sdk/http_client.py:12 | `_` before a digit, an upper-case letter or another `_` is kept, and `a__b` becomes `a_B` |
| JsonValue.ConvertValue | checkout_sdk/http_client.py:106-107 | a non-mapping value (scalar, list, list of mappings) is copied unchanged. A mapping stays a mapping with distinct keys, no more keys than before, and it is empty only if the input was |
| JsonValue.ConvertMembers | checkout_sdk/http_client.py:103-108 | the output keys are distinct. There are never more of them than input members, and the output is empty only for an empty input |
| JsonValue.ConvertMembersKeys | checkout_sdk/http_client.py:104-106 | the output keys are exactly the converted input keys |
| JsonValue.ConvertMembersGetMissing | checkout_sdk/http_client.py:104-106 | looking up a key in the output finds nothing exactly when no input key converts to it |
| JsonValue.ConvertMembersGetLast | checkout_sdk/http_client.py:105-106 | looking up a key in the output finds the converted value of the last input member whose key converts to it (later members win) |
| JsonValue.ConvertMembersOrder | checkout_sdk/http_client.py:104-106 | output keys appear in the order in which an input member first produced them, even when a later member overwrote the value |
| JsonValue.ConvertValueKeyCount | checkout_sdk/http_client.py:103-108 | the total number of keys, counted through nested mappings, never grows |
| JsonValue.ConvertValueSettles | checkout_sdk/http_client.py:103-108 | with an idempotent key conversion, every key at every level reached through mappings is a fixed point of the conversion. Keys inside lists are not reached |
| JsonValue.SettledValueFixed | checkout_sdk/http_client.py:103-108 | a value whose keys are already converted, at every mapping level, is left unchanged by conversion |
| JsonValue.ConvertValueIdempotent | checkout_sdk/http_client.py:103-108 | with an idempotent key conversion, converting a body twice equals converting it once |
| HttpClient.Headers | checkout_sdk/http_client.py:34-38 | the headers hold exactly `user-agent` (the default `checkout-sdk-python/<version>`) and `authorization` (the secret key). Every other key reads as in the defaults, and the default entry comes first |
| HttpClient.Shape | checkout_sdk/http_client.py:53-62 | the interceptor receives the configured base URL joined with the path, the client headers and the body with its keys converted (when present). The method is POST exactly when the body the interceptor returns is truthy |
| HttpClient.ShapeGet | checkout_sdk/http_client.py:40-41 | `get` hands the interceptor no body, and the method follows that body's truthiness |
| HttpClient.ShapePost | checkout_sdk/http_client.py:43-44 | `post` hands the interceptor the mapping with its keys converted to camelCase |
| HttpClient.ShapeWithMirror | checkout_sdk/http_client.py:22-24 | with the default interceptor the request goes to the joined URL with the client headers and the converted body. It is a POST exactly when the caller passed a mapping with at least one key |
| HttpClient.GetSendsNoBody | checkout_sdk/http_client.py:40-41 | with the default interceptor, `get` sends a GET with no body |
| HttpClient.PostEmptyIsGet | checkout_sdk/http_client.py:62 | `post` with an empty mapping is sent as a GET |
| HttpClient.SentKeysAreCamel | checkout_sdk/http_client.py:53-54 | with the default interceptor, every key sent at every mapping level is a camelCase fixed point, and converting the sent body again changes nothing |
| HttpClient.CamelIdempotent | checkout_sdk/http_client.py:100-101 | the key conversion used for bodies is idempotent on every key |
| HttpClient.RewrittenUrl | checkout_sdk/http_client.py:56-58 | an interceptor that only rewrites the URL yields the default request with just the URL replaced |
| HttpClient.KindOf | checkout_sdk/http_client.py:77-86 | the intended dispatch: 400, 401, 404 and 422 map to BadRequest, Authentication, ResourceNotFound and TooManyRequests, each if and only if. Every other status, 500 included, maps to ApiError. For unlisted statuses this is the evident intent of the default at lines 85-86, not what the code does |
| HttpClient.DispatchAsWritten | checkout_sdk/http_client.py:77-86 | the dispatch as the code performs it: it yields a kind exactly for the five listed statuses 400, 401, 404, 422 and 500, the same kind as `KindOf`, and fails for every other status |
| HttpClient.KindOfCanonical | checkout_sdk/http_client.py:77-83 | the dispatch inverts the table: each kind's own status maps back to it, and a specific kind is reached only from its own status |
| HttpClient.ErrorFrom | checkout_sdk/http_client.py:84-92 | the raised error carries `eventId`, `errorCode` and `message` as read from the error body, `http_status` equal to the response status, and the elapsed time |
| HttpClient.Complete | checkout_sdk/http_client.py:69-98 | the intended outcome of a call. A non-error response yields a response whose body is the parsed body, or none when parsing failed. An error status yields the dispatched kind with the body's fields. A timeout yields the raw elapsed seconds and any other failure yields the fixed support message. Each outcome occurs exactly in its case |
| HttpClient.CompleteAsWritten | checkout_sdk/http_client.py:69-98 | the outcome as the code computes it: the failed call of an `ApiError` object exactly for an error status outside the table, carrying that status; an HTTP error's kind comes from the table; every other outcome equals the intended one |
| HttpClient.AsWrittenDiffers | checkout_sdk/http_client.py:77-87 | the code as written and the intended outcome differ if and only if the answer is an error status outside the table |
| HttpClient.UnlistedStatusFails | checkout_sdk/http_client.py:85-87 | a 418 answer with a well-formed error body fails as written, where an ApiError carrying the body's fields is intended |
| HttpClient.UnparsableSuccessBody | checkout_sdk/http_client.py:70-75 | a success whose body does not parse is still a success, with no body |
| HttpClient.BadRequestCarriesFields | checkout_sdk/http_client.py:76-92 | a 400 answer with body `{eventId, errorCode, message}` raises BadRequest carrying exactly those values and status 400 |

## Left out

- The `requests.Session`, `close_session` and the network call itself (lines 20, 46-47, 61-66). The transport's answer is the `Transport` input of `Complete`.
- URL joining with `urljoin` (line 58) is a library call. It is the function parameter `join` of `Shape`, applied to the configured base URL and the path.
- Wall-clock timing (lines 50, 67, 94) and the two-decimal millisecond formatting are not modelled. The formatted milliseconds (`elapsedMillis`) and the raw seconds a timeout records (`elapsedSeconds`) are inputs. The model keeps the source's split: a timeout carries unformatted seconds, a response and an HTTP error carry the formatted milliseconds, and the connection error carries no time (lines 97-98).
- The transport timeout `config.timeout/1000` (line 66) is float division handed to the transport. `Config.timeoutMillis` is carried but not used.
- JSON parsing (`r.json()`, `e.response.json()`) is not modelled. Its result is an `Option<Json>` input, with `None` for a body that fails to parse.
- Complete: the error path (lines 84-91) requires the error body to parse to a mapping with the three keys (`WellFormedErrorBody`). The source raises an unhandled parse or key error otherwise, and that failure is not modelled.
- CompleteAsWritten: carries the same error-body precondition as `Complete`.
- Which statuses count as errors is decided by the transport library's `raise_for_status` (line 69), which is not part of this model. `IsHttpError` takes the library's rule, 400 to 599 inclusive.
- Exception mechanics (lines 69, 76, 93-98) become the `Outcome` datatype. Python's exception classes and their inheritance are not modelled.
- `constants.VERSION` is not part of this model. The SDK version string is a parameter of `DefaultHeaders` and `Headers`.
- Response headers are a case-insensitive mapping in the transport library. Here they are passed through as an opaque `Dict<string>`.
- `Json` numbers are `real`, so floating-point rounding is not modelled. Numbers only pass through conversion unchanged.
- Python `None` and a parsed JSON `null` are both `Null`, as in the source, where both are `None`.
- Shape: the body passed in must be `None` or a mapping (`IsBody`). The source fails with an attribute error on any other top-level value, and that failure is not modelled.
- The interceptor may return any Python objects. Here it returns a URL, a header dictionary and a `Json` body.
- `_convert_json` takes the key conversion as a parameter, and so does `ConvertValue`. `Shape` passes `ToCamel`, as `_request` does.
- ShapePost: takes a mapping. `post(path, None)` is the same request as `get(path)`, which `ShapeGet` covers.
- The `config` property and its setter (lines 26-32) are plain field access.

## Findings

| source | as written | input that shows it | evidently intended | confidence | as-written member | corrected member |
|---|---|---|---|---|---|---|
| checkout_sdk/http_client.py:85-87 | the lookup default is the class `errors.ApiError` instead of a function returning it, so the trailing `()` builds an `ApiError` object and line 87 calls that object, which fails with a type error | an HTTP error status outside the table, such as 418, with a well-formed error body (`UnlistedStatusFails`) | every status outside the table raises `ApiError` with the body's fields, like 500 | medium: `errors.py` is not part of this model, so the failure assumes `ApiError` objects are not callable; not executed | HttpClient.CompleteAsWritten | HttpClient.Complete |
