# contextio-go request/response pipeline, modelled in Dafny

This project models the decision-making core of the contextio-go client
library for the Context.IO email API. The network is not part of it.

**Parameter codecs.** Three revisions turn a parameter record into a
`url.Values` form, and from there into a `?k=v&…` query string:
- the reflection codec of `ciolite/params.go` (LiteParams);
- the hand-written `CioParams.FormValues` of `params.go` (RootParams);
- the strict `omitempty`-aware codec of the `cioutil` package (StrictParams).

Each revision is modelled as a list of field descriptors fed to one encoder.
That encoder is `url.Values.Encode`, modelled in UrlValues as a key-sorted
association list with a byte-level `ParseQuery` as its inverse.

**Flexible-shape decoders.** `ListHeaders`, `PersonInfo`, `Address`, the
message-address struct and both `WebhookMessageDataAddresses` revisions take
the exact bytes `[]` to mean "empty". Anything else goes to Go's
`encoding/json` decoder. That decoder is modelled in GoJson over a JSON
parser (Json) that keeps each node's raw text. `ExpiresMixed` reads either
`false` or an integer.

**Requests.** The revisions of the request pipeline are modelled separately:
- ciolite's `doFormRequest`, with its pre-request hook, its retry loop driven
  by the post-request hook, `sendRequest`'s outcome classification and
  `redactBodyValues` (LiteRequest);
- cioutil's `DoFormRequest`, with its URL and body construction, its
  MD5-scrubbing `logRequest` and its plain-error classification (UtilRequest).

An `Outcome` (module Outcomes) stands for what the transport, the body read
and the decoder did on one attempt.

**Errors.** `RequestError` comes in two revisions:
- ciolite's, whose cause field is `Err` (LiteRequestError);
- cioutil's, whose cause field is `Error` (UtilRequestError).

Both share `Error()`, `%+v`, `MarshalJSON` and the two `UnmarshalJSON` forms,
which are in RequestErrors. The marker-interface accessors of
`request_error_helper.go` are in ErrorHelper. `errors.Wrap` chains are
modelled in GoErrors.

**Clients and helpers:**
- callback validation, with the HMAC-SHA256 message, lowercase hex and the
  comparison (Callbacks, Hex, LiteClient, UtilClient);
- `FindEmailAccountMatching` and `upToSeparator` (EmailAccounts);
- `SafeCreateUserEmailAccountFolder` (Folders);
- `InboxName` (Misc);
- `CheckConnectToken` (ConnectTokens).

HMAC-SHA256 and MD5 are function parameters with fixed digest lengths.
Base16 encoding (section 8 of RFC 4648) is concrete. The same goes for UTF-8
(RFC 3629), JSON text (RFC 8259) and form encoding. A Go `panic` is modelled as
a `Panic` error value, and Go errors as the GoError datatype.

## Model

| member | source | states |
|---|---|---|
| Misc.InboxName | misc.go:4-15 | "gmail" and "googleapps" give "INBOX", and "msliveconnect" gives "Inbox". Every other string (matched case-sensitively) is the panic "Unknown discovery type: …". The result is always one of the two names. |
| Misc.UnknownTypes | misc.go:5-14 | "generic" and "Gmail" are rejected; "gmail" and "googleapps" agree on "INBOX". |
| LiteParams.JsonName | ciolite/params.go:72-82 | The JSON name is the tag up to its first comma. An empty name (empty tag, or a tag starting with a comma) is the missing-tag panic. |
| LiteParams.FormValues | ciolite/params.go:11-56 | A nil parameter value gives the empty form. Every successful form is key-sorted. |
| LiteParams.FormValuesPanics | ciolite/params.go:24-77 | Encoding succeeds iff every field has a string, bool or int kind and every non-zero field has a JSON name (a zero field's tag is never read). Otherwise the result is the panic of the first field that fails: the unexpected-kind panic or the missing-tag panic. |
| LiteParams.FieldSetsMembers | ciolite/params.go:30-48 | The pairs written are exactly the (name, rendering) pairs of the non-zero fields: strings verbatim, `true` as "1", ints in decimal. |
| LiteParams.FieldPresence | ciolite/params.go:30-48 | With a unique name, a field's key is present iff its value is non-zero, and its single value is then the field's rendering. |
| LiteParams.OmitEmptyIgnored | ciolite/params.go:27-48 | Tag options are ignored: two field lists that differ only in tag options (`omitempty` or not) encode identically. |
| LiteParams.NilQueryString | ciolite/params.go:17-66 | A nil parameter value gives the empty query string. |
| LiteParams.QueryStringParses | ciolite/params.go:59-69 | A non-empty query string is "?" followed by text that parses back to exactly the form's pairs, key-sorted. |
| RootParams.NameInjective | params.go:62-206 | Distinct parameters are written under distinct form keys. |
| RootParams.FormValues | params.go:62-206 | The hand-written form is key-sorted. |
| RootParams.KeyPresence | params.go:62-206 | Every key of `CioParams` is present iff its field is non-zero: a non-empty string, `true`, or a non-zero int. This holds for `source_raw_file_list` too, even though its tag lacks `omitempty`. |
| RootParams.KeyValue | params.go:62-206 | A present key carries exactly one value. For the twelve miswired keys it is `FirstName`; for `status_callback_url` it is `StatusOK`; otherwise it is the field's own rendering ("1" for bools, decimal for ints). |
| RootParams.WrittenField | params.go:86-151 | The statement for a non-zero field writes the field's own rendering, except for the miswired keys, which write `FirstName` or `StatusOK`. |
| RootParams.OnlyKnownKeys | params.go:62-206 | No key outside the `CioParams` field names ever appears in the form. |
| RootParams.QueryString | params.go:210-220 | The result is "" iff the form is empty. Otherwise it is "?" followed by text that parses back to the form's pairs. |
| RootParams.FilterWritesFirstName | params.go:87 | With only `FilterTo = "inbox"` set, `filter_to` is written as "" (the empty `FirstName`); the corrected codec writes "inbox". |
| RootParams.StatusCallbackWritesStatusOK | params.go:150 | With only `StatusCallbackURL` set, `status_callback_url` is written as "" (the empty `StatusOK`); the corrected codec writes the URL. |
| RootParams.IntendedFormValues | params.go:62-206 | The corrected form is key-sorted. |
| RootParams.IntendedKeyValue | params.go:62-206 | In the corrected codec every key is present iff its field is non-zero, and it carries that field's own rendering. |
| RootParams.AsWrittenAgreesElsewhere | params.go:62-206 | The code as written and the corrected codec agree on every key except the thirteen miswired ones. |
| StrictParams.FormValues | cioutil/params_test.go:10-58 | The strict form is key-sorted. |
| StrictParams.QueryString | cioutil/params_test.go:45-56 | The result is "" iff there are no pairs. Otherwise it is "?" followed by text that parses back to the form's pairs, in key order. |
| StrictParams.FieldSetsMembers | cioutil/params_test.go:12-29 | The pairs written are exactly those of the included fields: fields without `omitempty`, and non-zero fields with it. |
| StrictParams.FieldPresence | cioutil/params_test.go:12-43 | A uniquely named field's key is present iff the field is included, and its value is the field's rendering. |
| StrictParams.ZeroWithoutOmitEmpty | cioutil/params_test.go:15-39 | A zero field without `omitempty` is still written: "" for a string, "0" for a bool or an int. |
| StrictParams.AgreesWithLooseCodec | cioutil/params_test.go:19-29 | When every tag has `omitempty`, the strict codec and the reflection codec of ciolite produce the same form. |
| UrlValues.Lookup | ciolite/params.go:35-47 | A key has no values iff no entry carries it. |
| UrlValues.Set | ciolite/params.go:35-47 | `Set` gives the key exactly the one new value, keeps the form sorted and leaves every other key's values as they were. |
| UrlValues.BuildLookup | ciolite/params.go:30-52 | After a run of `Set` calls, each key holds the last value set for it, or its earlier values if it was never set. |
| UrlValues.QueryEscapeRoundTrip | ciolite/request.go:37 | Query-escaping a string and unescaping it gives back the string's UTF-8 bytes. |
| UrlValues.EncodeEmptyIff | cioutil/request.go:36-39 | The encoded body is empty iff the form holds no pairs, so a body reader is attached iff there is something to send. |
| UrlValues.EncodeParseRoundTrip | ciolite/request.go:36-37 | The encoded body parses back to the form's pairs, in key order, with no error. |
| UrlValues.QueryStringOf | ciolite/params.go:59-69 | The query string is "" iff there are no pairs, and otherwise starts with "?". |
| UrlValues.QueryStringRoundTrip | ciolite/params.go:59-69 | After the "?", the query string parses back to the form's pairs. |
| Json.SerializeParse | ciolite/request_error.go:78-99 | The JSON text `json.Marshal` produces for a well-formed value parses back to that value, with every node's raw text. |
| GoJson.UnmarshalErrors | ciolite/lite_users_email_accounts_folders_messages.go:98-104 | Unmarshalling fails with a syntax error iff the text is not JSON. Any other failure is a type mismatch, and a success conforms to the target type. |
| GoJson.UnmarshalFits | ciolite/lite_users_email_accounts_folders_messages.go:98-104 | Unmarshalling succeeds iff the text is JSON whose shape fits the target type. |
| GoJson.DecodeFits | ciolite/lite_users_email_accounts_folders_messages.go:98-104 | Decoding a node reports no error iff the node's shape fits the type. |
| GoJson.NullIsZero | ciolite/lite_users_email_accounts_folders_messages.go:98-104 | JSON `null` leaves a zero receiver zero, without error. |
| GoJson.FlexibleOutcome | ciolite/lite_users_email_accounts_folders_messages.go:92-104 | The flexible decoders turn exactly `[]` into the zero value. Anything else succeeds iff it is JSON of the right shape. On failure the receiver is unchanged, and on success the result conforms to the type. |
| GoJson.FlexibleInPlace | ciolite/lite_users_email_accounts_folders_messages.go:138-153 | A field whose type has its own flexible decoder is decoded by that decoder, and its error stops the enclosing decode. |
| GoJson.ArrayRejected | ciolite/lite_users_email_accounts_folders_messages.go:93-104 | An array other than the exact bytes `[]` (for example `[ ]` or `[1]`) is a type error for a map or struct target, and the receiver keeps its value. |
| GoJson.EntriesReference | ciolite/lite_users_email_accounts_folders_messages.go:98-104 | Decoding into a map keeps the existing entries and sets each key to its last member's value. |
| GoJson.FieldsInOrder | ciolite/lite_users_webhooks.go:192-199 | When the members match the struct fields one by one, each field gets its member's decoded value. |
| GoJson.FieldUntouched | ciolite/lite_users_webhooks.go:192-199 | A struct field that no member names keeps its previous value. |
| FlexibleLite.ListHeadersObject | ciolite/lite_users_email_accounts_folders_messages.go:89-105 | An object of strings decodes to a map holding exactly the last value given for each header. |
| FlexibleLite.PersonInfoObject | ciolite/lite_users_email_accounts_folders_messages.go:110-126 | An object of string objects decodes to a nested map: each person's entry holds the headers of its last occurrence, and absent persons are absent. |
| FlexibleLite.AddressDecode | ciolite/lite_users_email_accounts_folders_messages.go:132-153 | As a field, `[]` gives the zero `Address` and an object of strings gives its email and name, without error. |
| FlexibleLite.AddressObject | ciolite/lite_users_email_accounts_folders_messages.go:138-153 | As a top-level text, an object of strings decodes to the `Address` it names. |
| FlexibleLite.AddressList | ciolite/lite_users_email_accounts_folders_messages.go:158-183 | Every element of an address list goes through the `Address` decoder, in order. |
| FlexibleLite.WebhookFromSentinel | ciolite/lite_users_webhooks.go:174-200 | `from: []` is accepted and gives the empty `Address`; the whole object decodes iff every other member fits. |
| FlexibleLite.WebhookFromObject | ciolite/lite_users_webhooks.go:174-200 | With `from` an object of strings, `From` is that `Address`; the object decodes iff every other member fits. |
| FlexibleApi.FromArrayRejected | ciolite/api_users_webhooks.go:167-215 | In the older revision `from: []` is a type error for the anonymous struct, and the receiver keeps its value. |
| FlexibleApi.FromObject | ciolite/api_users_webhooks.go:167-215 | In the older revision `from` as an object of strings is accepted and gives From the Address its members describe. The other members alone decide whether decoding succeeds, as in the newer revision. |
| FlexibleApi.FromSentinelDiffers | ciolite/api_users_webhooks.go:167-215 | An object with `from: []` that the newer revision accepts is rejected by the older one. |
| ConnectTokens.UnmarshalExpires | ciolite/lite_connect_tokens_test.go:203-250 | `false` (and nothing else) reads as the absent state. A present timestamp only comes from a JSON number. |
| ConnectTokens.MarshalRoundTrip | ciolite/lite_connect_tokens_test.go:210-249 | Marshalling then unmarshalling gives back both states unchanged. |
| ConnectTokens.TextRoundTrip | ciolite/lite_connect_tokens_test.go:210-249 | `false` reads as absent, with Unused() false and Timestamp() -1. An integer reads as present, with Unused() true and Timestamp() equal to that integer. Both marshal back byte for byte. |
| ConnectTokens.UnmarshalStable | ciolite/lite_connect_tokens_test.go:203-250 | Anything unmarshalling accepts survives a second marshal/unmarshal round unchanged. |
| ConnectTokens.CheckConnectToken | ciolite/lite_connect_tokens_test.go:61-189 | The result is nil iff the email matches and the token is used. A mismatched email gives "Email does not match Context.io token"; an unused token gives "Context.io token not used yet". |
| Callbacks.SignedMessage | ciolite/ciolite.go:79 | The signed message is the decimal timestamp followed directly by the token. |
| Callbacks.HashHmac | ciolite/ciolite.go:85-91 | The HMAC is 64 lowercase hex digits that decode back to the MAC of the UTF-8 message under the UTF-8 secret. |
| Callbacks.ValidateCallback | ciolite/ciolite.go:77-82 | A callback is valid iff the signature equals the hex HMAC of the signed message, so a valid signature is never empty. |
| Callbacks.AcceptedSignature | ciolite/ciolite.go:77-91 | An accepted signature decodes to the MAC and has no uppercase hex digit. |
| Callbacks.OneSignature | ciolite/ciolite.go:77-91 | At most one signature is accepted for a given token and timestamp. |
| Callbacks.NoSeparator | ciolite/ciolite.go:79 | (1, "23") and (12, "3") produce the same signed message and therefore the same verdict. |
| LiteClient.NewCioLite | ciolite/ciolite.go:16-60 | A new client holds the key and secret, the default host and a 120-second timeout, and no hooks. |
| LiteClient.ValidateCallback | ciolite/ciolite.go:77-82 | The client accepts exactly the hex HMAC of the timestamp followed by the token, under its secret. |
| LiteClient.NewClientValidates | ciolite/ciolite.go:53-82 | A new client validates like the bare check under its secret, and rejects the empty signature. |
| UtilClient.NewCio | cioutil/utils.go:29-37 | `NewCio` copies key, secret, logger, host and timeout; it does not retry server errors and has no pre-request hook. |
| UtilClient.ValidateCallback | cioutil/utils.go:40-45 | The client accepts exactly the hex HMAC of the timestamp followed by the token, under its secret. |
| UtilClient.SignatureShape | cioutil/utils.go:40-54 | The expected signature has even length, is accepted, and is the only signature accepted. |
| Hex.EncodeToString | ciolite/ciolite.go:90 | Hex encoding doubles the length and writes each byte as its high and then its low lowercase digit. |
| Hex.EncodeDecode | ciolite/ciolite.go:90 | Decoding a hex encoding gives back the bytes without error. |
| Hex.EncodeInjective | ciolite/ciolite.go:90 | Distinct byte strings have distinct hex encodings. |
| GoErrors.Cause | ciolite/request_error.go:47-49 | The cause of an error is never a wrapper, and an unwrapped error is its own cause. |
| GoErrors.CauseAtEnds | ciolite/request_error.go:47-70 | The cause's message ends the wrapped message, and it begins the verbose `%+v` text. |
| GoErrors.CauseIdempotent | ciolite/request_error.go:47-49 | Taking the cause twice is the same as taking it once. |
| RequestErrors.CauseShown | ciolite/request_error.go:52-75 | `Error()` is the cause chain's message, then "; ", then the `{StatusCode:… Payload:… Method:… URL:…}` block; the innermost cause sits just before the "; ". `%+v` starts with the innermost cause. |
| RequestErrors.MethodRoundTrip | ciolite/request_error.go:78-99 | The `UnmarshalJSON` method reads back what `MarshalJSON` wrote, with the same metadata and the cause reduced to its message. This holds for the key "Err" and the key "Error". |
| RequestErrors.HelperRoundTrip | ciolite/request_error.go:78-115 | The `UnmarshalJSON` helper gives back a non-nil error with the same metadata, a cause reduced to its message, and the same `Error()` text. |
| RequestErrors.HelperNullAndSyntax | ciolite/request_error.go:105-115 | The helper maps `null` to (nil, nil) and malformed JSON to (nil, syntax error). |
| LiteRequestError.JsonRoundTrip | ciolite/request_error.go:26-115 | After a marshal/helper-unmarshal round, the four accessors and `Error()` are unchanged and the cause keeps its message. |
| LiteRequestError.WrappedExampleText | ciolite/request_error.go:52-75 | A 500 error wrapping "cause error" in "outer error" reads "outer error: cause error; {…}". Its cause is "cause error", and `%+v` lists the cause, then the wrapper, then the metadata. |
| LiteRequestError.WrappedExampleStatus | ciolite/request_error.go:68-70 | The metadata block of that error starts with "{StatusCode:500 ". |
| UtilRequestError.ErrorStatusCode | cioutil/request_error.go:39-47 | A nil error gives 0, a `RequestError` its status, and any other error -1. |
| UtilRequestError.ErrorPayload | cioutil/request_error.go:50-58 | A nil error gives "", a `RequestError` its payload, and any other error "UNKNOWN". |
| UtilRequestError.ErrorMethod | cioutil/request_error.go:61-69 | A nil error gives "", a `RequestError` its method, and any other error "UNKNOWN". |
| UtilRequestError.ErrorURL | cioutil/request_error.go:72-80 | A nil error gives "", a `RequestError` its URL, and any other error "UNKNOWN". |
| UtilRequestError.AsError | cioutil/request_error.go:135-145 | The helper's result is a nil error iff no `RequestError` was read. |
| UtilRequestError.JsonRoundTrip | cioutil/request_error.go:109-145 | Under the key "Error", a marshal/helper-unmarshal round keeps `Error()` and all four accessors. |
| UtilRequestError.NullIsNil | cioutil/request_error.go:135-145 | `null` reads as the nil error, whose accessors give 0 and "". |
| ErrorHelper.ErrorStatusCode | cioutil/request_error_helper.go:11-22 | A nil error gives 0. An error with an `ErrorStatusCode` method gives that method's answer, and any other error -1. |
| ErrorHelper.ErrorPayload | cioutil/request_error_helper.go:25-36 | A nil error gives "". An error with the method gives its answer, and any other error "UNKNOWN". |
| ErrorHelper.ErrorMethod | cioutil/request_error_helper.go:39-50 | A nil error gives "". An error with the method gives its answer, and any other error "UNKNOWN". |
| ErrorHelper.ErrorURL | cioutil/request_error_helper.go:53-64 | A nil error gives "". An error with the method gives its answer, and any other error "UNKNOWN". |
| ErrorHelper.LiteMethods | ciolite/request_error.go:26-43 | ciolite's `RequestError` offers all four methods, each answering with its own field. |
| ErrorHelper.LiteAnswers | cioutil/request_error_helper.go:11-64 | For ciolite's `RequestError`, the helpers answer what its own methods answer. |
| ErrorHelper.Independent | cioutil/request_error_helper.go:11-64 | Each accessor looks only at its own method: an error offering only `ErrorPayload` gets its payload, with -1 and "UNKNOWN" for the others. |
| ErrorHelper.RevisionsCompared | cioutil/request_error_helper.go:11-64 | The helpers and cioutil's accessors agree on nil and on foreign errors. On ciolite's `RequestError`, cioutil's accessors give the sentinels while the helpers give the real fields. |
| Redaction.RedactKey | ciolite/request.go:147-170 | Redacting one key replaces a non-empty first value with the stand-in and leaves every other key alone. |
| Redaction.RedactLookup | ciolite/request.go:147-170 | After redaction, a sensitive key with a non-empty first value holds only the stand-in; every other key keeps its values. |
| Redaction.FirstValueOnly | ciolite/request.go:155-166 | A sensitive key whose first value is empty is left as it is, even if later values are not. |
| LiteRequest.RedactBody | ciolite/request.go:147-170 | The body passed to the hook has `["redacted"]` for each of `password`, `provider_refresh_token`, `provider_consumer_key` and `provider_consumer_secret` with a non-empty first value. Other keys are unchanged, and no key appears or disappears. |
| LiteRequest.RedactIdempotent | ciolite/request.go:147-170 | Redacting twice is the same as redacting once. |
| LiteRequest.Prepare | ciolite/request.go:27-42 | The URL is the host, then the escaped path, then the query string, and the body is the encoded form. A panic in either parameter codec stops the request. The pre-request hook is called iff it is set, and then with the redacted body. |
| LiteRequest.PreHookRedacted | ciolite/request.go:40-42 | The pre-request hook never sees a non-empty secret: each sensitive key is empty or "redacted". |
| LiteRequest.Classify | ciolite/request.go:83-144 | The error is nil iff the attempt succeeded. A construction or transport failure gives status 0 and payload "". A read failure gives the status and the partial body. A response gives its status and body. Every `RequestError` carries the URL and that status and payload. A construction failure carries the request's method. Later errors carry the method of the built `*http.Request`, where an empty method has become "GET". |
| LiteRequest.StatusDecides | ciolite/request.go:132-137 | Status >= 400 gives the same reply whatever the decoder said, with the cause "CIO: Status Code >= 400". |
| LiteRequest.FailureCause | ciolite/request.go:73-143 | A failure's `RequestError` has the underlying error's cause as its cause. |
| LiteRequest.ReplyAccessors | ciolite/request.go:83-144 | The error's accessors report the reply's status, payload and URL, and the method as built: the request's own for a construction failure, with "" read as "GET" afterwards. The marker-interface helpers report the same status and payload. |
| LiteRequest.FirstStop | ciolite/request.go:51-58 | The first "no" among the hook's answers: every earlier answer is "yes". |
| LiteRequest.AttemptLoop | ciolite/request.go:51-60 | Without a retry hook one attempt is made. With one, attempts continue up to and including the first "no". The hook sees attempt numbers 1, 2, 3, …, and the returned error is that of the last attempt. |
| LiteRequest.DoFormRequest | ciolite/request.go:27-61 | A codec panic aborts before any hook or attempt. Otherwise the pre-request hook runs once, then the attempt loop, and the result is the last attempt's error. |
| UtilRequest.Build | cioutil/request.go:26-39 | The URL is the host, then the path, then the strict query string. There is a body iff the form is non-empty, and it parses back to the form's pairs. |
| UtilRequest.Md5Hex | cioutil/request.go:125-136 | The logged stand-in is 32 lowercase hex digits that decode to the MD5 of the value's UTF-8 bytes. |
| UtilRequest.LoggedLookup | cioutil/request.go:119-136 | In the log, each sensitive key with a non-empty first value shows only the MD5 of that value; every other key is logged as it is. |
| UtilRequest.LogRequest | cioutil/request.go:115-147 | Without a logger nothing is logged. logrus gets the scrubbed payload as a field. A plain logger gets a line that starts with "Creating new ", the method, " request to: " and the URL, and ends with " with payload: " and the scrubbed payload. |
| UtilRequest.Classify | cioutil/request.go:51-112 | The error is nil iff the attempt succeeded. Below 400 the decoder's error is returned unchanged. From 400 up the plain error is "<status> Status Code with Payload <body>". A construction, transport or read failure gives "Could not create request: ", "Failed to make request: " or "Could not read response: ", followed by the underlying message. |
| UtilRequest.StatusInText | cioutil/request.go:106-108 | The status can be read back from the start of the ">= 400" error's text, and the body from its end. |
| UtilRequest.RejectionIgnoresDecoder | cioutil/request.go:100-108 | From 400 up the error is the same whatever the decoder said, and it is never nil. |
| UtilRequest.ReadFailureLosesStatus | cioutil/request.go:93-96 | A read failure's error does not depend on the status or the partial body, whereas ciolite's reply keeps the status. |
| UtilRequest.DoFormRequest | cioutil/request.go:26-48 | A log entry is made iff there is a logger: logrus fields iff the logger is logrus, otherwise a plain line. Either way the entry carries the request's method, its URL with the query string and the scrubbed body. The error returned is the outcome's classification (the exact texts of lines 55, 83, 95 and 107, or the decoder's error), so it is nil iff the attempt succeeded. |
| UtilRequest.AgreesWithLite | cioutil/request.go:73-112 | cioutil and ciolite agree on which outcomes are failures. |
| EmailAccounts.UpToSeparator | ciolite/api_users_email_accounts.go:230-236 | The result is the prefix before the first occurrence of the separator, or the whole string if there is none. |
| EmailAccounts.UpToSeparatorFree | ciolite/api_users_email_accounts.go:230-236 | The result never contains a non-empty separator. |
| EmailAccounts.UpToSeparatorIdempotent | ciolite/api_users_email_accounts.go:230-236 | Applying it twice is the same as applying it once. |
| EmailAccounts.FindEmailAccountMatching | ciolite/api_users_email_accounts.go:202-226 | An account is found iff some account matches exactly or by local part, and it is an element of the list. The first exact (case-insensitive) username match wins anywhere. Only without one does the first local-part match win. Otherwise the error lists the accounts. |
| Folders.SafeCreate | ciolite/api_users_email_accounts_folders.go:121-148 | The GET comes first and the names-only list second. Create is called iff the folder was found by neither, and the first result is true exactly then; an error implies an attempted create. |
| Folders.ExistingFolder | ciolite/api_users_email_accounts_folders.go:123-127 | A GET that finds the folder gives (false, nil) after one call. |
| Folders.ListFailureSwallowed | ciolite/api_users_email_accounts_folders.go:130-137 | A failed list call behaves like an empty list. |
| Folders.CreateDecides | ciolite/api_users_email_accounts_folders.go:139-147 | Once create is called, its error is returned, `Success = false` gives "Unable to create folder", and success gives nil. |

## Left out

- The network, the HTTP client, request timeouts, headers and OAuth 1.0 request signing (section 3.4 of RFC 5849, done by a foreign library in `createRequest`) are not modelled. A transport, read or request-construction failure is an input `Outcome`.
- HMAC-SHA256 and MD5 are uninterpreted function parameters (fixed digest lengths of 32 and 16 bytes). Only hex encoding and the comparison are concrete.
- `url.URL` path escaping in ciolite's `doFormRequest` is a function parameter.
- The clock: the `time.Now` arguments of the post-request hook are not modelled. The hook is a finite list of yes/no answers whose last answer is "no". A hook that never says "no" (an endless loop in the source) is outside the model.
- The post-request hook's other arguments are recorded in `HookCall`, but the hook's `result` side effects are not.
- Logging sinks: `logResponse`, `logBodyCloseError` and `ResponseBodyCloseErrorHook` only write logs. `LogRequest` models what is logged, not the writer. The source calls `log.Println` on a `Logger` interface that only declares `Printf`; the model treats it as a plain-text line.
- `errors.Wrap` stack traces are not modelled. An error is a chain of messages, and `%+v` shows that chain without stack frames. `%q` quoting is a function parameter.
- A `RequestError` with a nil cause is not modelled. A cause is always a GoError value, while in the source a nil cause makes `MarshalJSON` dereference nil.
- StrictParams.FormValues: the strict codec's implementation is not part of this model. It is modelled from the test's expectations, so its domain (string, bool and int fields, each with a non-empty JSON name) is a precondition rather than a panic.
- ConnectTokens.UnmarshalExpires and ConnectTokens.CheckConnectToken: the implementations of `ExpiresMixed` and `CheckConnectToken` are not part of this model. Both are modelled from the behaviour the connect-token tests fix. The error text of an unsupported JSON value is modelled as Go's type-mismatch error.
- GoJson.Decode covers only the target kinds the decoders use: string, int, `map[string]T`, structs and slices. The text and offsets of Go's decode errors are reduced to syntax versus type mismatch (with the JSON kind and target type names). Floats, pointers, interfaces, embedded structs and `json.Number` are not modelled.
- RequestErrors.MethodRoundTrip, RequestErrors.HelperRoundTrip, LiteRequestError.JsonRoundTrip and UtilRequestError.JsonRoundTrip: every Go `string` and `[]byte` is modelled as a sequence of Unicode scalar values, so byte strings that are not valid UTF-8 cannot be represented. These round trips are stated only for representable strings. In Go a response body that is not valid UTF-8 (`string(resBody)` at ciolite/request.go:126 and cioutil/request.go:97) would not come back unchanged, because `json.Marshal` writes each invalid byte as `\ufffd`. The same limit applies to form values, callback tokens and secrets.
- Json.Parse has no nesting-depth limit (Go's decoder stops at 10000).
- The `json.Marshal` string escaping follows the Go releases before 1.22, which write `\b` and `\f` as `\u0008` and `\u000c`.
- Base.ToLower folds ASCII letters only. `strings.ToLower` and `strings.EqualFold` also fold the rest of Unicode, so the two differ on non-ASCII letters.
- A nil `url.Values` and an empty one are the same value in the model.
- Redaction: both revisions inspect only the first value of a sensitive key, as the source does. Later values pass through unscrubbed (see `Redaction.FirstValueOnly`).
- The per-endpoint wrappers in every `api_*.go` and `lite_*.go`, their response structs, the root `request.go`, `NewTestCioLiteServer` and the test programs only build call descriptors or run servers.
- Duplicate declarations: `cioutil/request_error.go` and `cioutil/request_error_helper.go` both declare `ErrorStatusCode` and its siblings, so the package would not compile as one. Each is modelled as its own revision (UtilRequestError, ErrorHelper), and `ErrorHelper.RevisionsCompared` relates them.

## Findings

| source | as written | input that shows it | evidently intended | confidence | as-written member | corrected member |
|---|---|---|---|---|---|---|
| params.go:86-121 | `filter_to`, `filter_from`, `filter_cc`, `filter_subject`, `filter_thread`, `filter_new_important`, `filter_file_name`, `filter_folder_added`, `filter_to_domain`, `filter_from_domain`, `migrate_account_id` and `new_folder_id` are written with the value of `FirstName` | `CioParams{FilterTo: "inbox"}` sends `filter_to=` (empty) | each key carries its own field | not executed | RootParams.FilterWritesFirstName | RootParams.IntendedKeyValue |
| params.go:149-151 | `status_callback_url` is written with the value of `StatusOK` | `CioParams{StatusCallbackURL: "https://cb"}` sends `status_callback_url=` (empty) | the key carries `StatusCallbackURL` | not executed | RootParams.StatusCallbackWritesStatusOK | RootParams.IntendedKeyValue |
