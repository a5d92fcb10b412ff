# osauth core, modelled in Dafny

A model of the authentication core of `osauth`, a Rust client library for OpenStack APIs. It covers three pieces:

- **Error responses** (`src/client.rs`). An error body yields a human-readable message. The candidate fields are `message`, `faultstring` and `title`, in that order. The legacy Ironic `error_message` field holds JSON inside a string and is decoded exactly one level deep. The body may be one message object or a map from any key to a message object, and the map shape is tried first. When no message is found, the raw text is the message. `check` turns a 4xx/5xx response into an error carrying the status and that message. The request builder's configuration calls each return a new value.
- **Password authentication** (`src/identity.rs`), following the token-issue rules of the OpenStack Identity API v3. The token endpoint is derived from the auth URL with the `/v3` suffix rule. A token-issue response must carry a text `X-Subject-Token` header. One token is cached. A refresh reuses it while more than 10 minutes are left; otherwise it sends exactly one token request and replaces the cache only on success. Tokens are attached to requests as `x-auth-token`. Endpoint lookup goes through the cached catalog.
- **Cloud configuration** (`src/config.rs`). `clouds.yaml` is searched in the current directory, then `~/.config/openstack`, then `/etc/openstack`. Resolving a named cloud fills in the `Default` domains, and applies project scope and region only when they are given.

Files: `wrappers.dfy` (Option and Result), `errors.dfy` (the error value), `http.dfy` (status classes, header text, URLs, requests), `client.dfy`, `identity.dfy` and `config.dfy` (one module per source file).

Outside collaborators are parameters of the functions and methods that use them:

- `parse: string -> Option<Json>` is text-to-JSON parsing. Typed decoding of the error records is modelled on top of it. That includes the derived deserializer's rules: unknown fields are ignored, a repeated known field is an error, `null` is an absent value, and a 4-element array is also accepted for the record.
- `intoUrl` and `parseUrl` are URL parsing.
- `send` is the result of the token request.
- `findEndpoint` is catalog endpoint selection.
- `FileSystem` (is-a-file, canonicalize, home directory), `openFile` and `parseClouds` are the file system and the YAML parser.
- `now` is the clock, in whole seconds.

The order in which a hash map yields its entries is unspecified. The model therefore picks an arbitrary entry (`FirstEntry`), and results are stated only for maps with one key.

Two points about what the code does:

- A refresh caches the newly issued token without checking that token's own expiry. So a successful refresh does not guarantee more than 10 minutes of validity: `RefreshMayStoreShortLivedToken` shows a token with one minute left being cached.
- `from_config` returns a session wrapping the password authentication. Here it returns the `Password` object itself, because the session type is not part of this model.

The token endpoint rule appends to the URL's serialization. A bare host URL serializes with a trailing `/`, so it gives `http://host//v3/auth/tokens` (`TokenEndpointOfRootPath`). A URL with a query string would get the suffix after the query. `TokenEndpointShape` therefore assumes that the serialization ends with the path.

## Model

| member | source | states |
|---|---|---|
| `Http.HeaderToStr` | src/identity.rs:286-299 | a header value reads as text iff every byte is visible ASCII or tab; the text then has the same characters as the bytes |
| `Client.DecodeMessage` | src/client.rs:176-183 | an object decodes iff each of the four known fields is absent, null or a single string (no repeats), and the record holds exactly those fields; a 4-element array decodes iff each element is null or a string, filling `message`, `faultstring`, `title`, `error_message` by position; nothing else decodes |
| `Client.DecodeMessageIgnoresUnknown` | src/client.rs:176-183 | a member under a key other than the four known ones, inserted anywhere in an object, leaves the decoding unchanged |
| `Client.DecodeMessageRejectsRepeated` | src/client.rs:176-183 | a known field given more than once makes the record fail to decode |
| `Client.DecodeFieldOnce` | src/client.rs:176-183 | a field given exactly once is read from that member's value, wherever it stands |
| `Client.DecodeFieldAbsent` | src/client.rs:176-183 | a field not given at all is absent (None) |
| `Client.FirstPresentOfDirectFields` | src/client.rs:187 | the `message`/`faultstring`/`title` or-chain is the first present entry of that list |
| `Client.Convert` | src/client.rs:185-203 | the first present direct field wins; otherwise None when not recursive; otherwise the first direct field of the decoded `error_message` message, or None |
| `Client.InnerMessage` | src/client.rs:191-192 | the legacy inner message exists iff `error_message` is present, parses as JSON and decodes as a message |
| `Client.IntoText` | src/client.rs:205-209 | a present direct field wins; otherwise the inner message's first direct field, or None; None exactly when neither has one |
| `Client.DecodeErrorResponse` | src/client.rs:211-216 | the map shape is tried first; the single-message shape is used exactly when the map shape fails and the message decodes, and then the result is that message; one of the two decodes iff the result is present |
| `Client.DecodeMessageMap` | src/client.rs:211-216 | an object reads as a map from key to message iff every member's value decodes as a message |
| `Client.FirstEntry` | src/client.rs:222 | iterating a map gives an entry iff the map is non-empty, and the entry is one of its values |
| `Client.ExtractMessage` | src/client.rs:218-226 | a body that is not JSON, fits neither shape or is an empty map gives the text itself; a single message gives its conversion, else the text; a non-empty map gives the conversion of one of its entries (the text when that entry has no message) |
| `Client.Check` | src/client.rs:229-243 | failure iff the status is 400 to 599; a failure carries the status-derived kind, the extracted message and the status, or the body-read error; anything else is the unchanged response |
| `Client.WithBody` | src/client.rs:252-258 | the body is replaced; the client and every other setting stay |
| `Client.WithHeader` | src/client.rs:260-272 | the header is appended after those already set; the client and every other setting stay |
| `Client.WithHeaders` | src/client.rs:274-280 | every new header is set; an old header survives iff the new set does not name it; no other header appears; the client and every other setting stay |
| `Client.WithJson` | src/client.rs:282-288 | the serialized value is the body; a JSON content type is added iff none is set, so one is always set afterwards; the client and every other setting stay |
| `Client.WithQuery` | src/client.rs:290-296 | the pairs follow the query already set; the client and every other setting stay |
| `Client.WithTimeout` | src/client.rs:298-304 | the timeout is replaced; the client and every other setting stay |
| `Client.TryClone` | src/client.rs:363-368 | cloning succeeds iff the body is not a stream, and the clone has the same configuration and client |
| `Client.FirstPresentIsFirst` | src/client.rs:187 | a present entry preceded only by absent ones is the chosen one |
| `Client.FirstPresentNone` | src/client.rs:187 | nothing is chosen iff all entries are absent |
| `Client.ConvertPriority` | src/client.rs:187-189 | `message` beats `faultstring`, which beats `title`, for either recursion flag |
| `Client.ConvertNonRecursiveIgnoresLegacy` | src/client.rs:199-201 | without recursion the result does not depend on the parser, and is None when no direct field exists |
| `Client.ConvertStopsAfterOneLevel` | src/client.rs:190-195 | an inner message without direct fields yields None, even with its own `error_message` |
| `Client.ConvertLegacyMissingOrInvalid` | src/client.rs:190-198 | with no direct field, an absent, unparsable or undecodable `error_message` yields None |
| `Client.DecodeMessageMapRejects` | src/client.rs:212-216 | one value that is not a message makes the map shape fail |
| `Client.DecodeMessageMapKeys` | src/client.rs:214 | the decoded map's keys are exactly the object's keys |
| `Client.DecodeMessageMapSingleKey` | src/client.rs:214 | members all under one key decode to a one-entry map holding the last member's message |
| `Client.FlatMessageIsNotMap` | src/client.rs:212-216 | an object with a string-valued member is never the map shape, so it is read as a single message |
| `Client.ExtractFallsBackToText` | src/client.rs:218-226 | a body that is not JSON, or matches neither shape, is returned unchanged |
| `Client.ExtractEmptyObject` | src/client.rs:221-225 | `{}` is an empty map with no entry, so the text is returned unchanged |
| `Client.ExtractSingleKeyMap` | src/client.rs:221-222 | a single-key map body yields that entry's message converted with legacy decoding, else the text |
| `Client.ExtractFlatMessage` | src/client.rs:223 | a flat message body yields its converted message, else the text |
| `Client.ExtractArrayMessage` | src/client.rs:211-226 | the array body `[null, "I failed", null, null]` is not a map, is read as a message by position, and yields "I failed" |
| `Client.TestPlain` | src/client.rs:391-395 | an HTML body is returned unchanged |
| `Client.TestSimpleMessage` | src/client.rs:398-402 | `{"message": "I failed"}` yields "I failed" |
| `Client.TestNestedMessage` | src/client.rs:405-409 | `{"SomethingFailed": {"message": "I failed"}}` yields "I failed" |
| `Client.TestIronicMessage` | src/client.rs:412-416 | `{"error_message": {"faultstring": "I failed"}}` yields "I failed" through the map shape |
| `Client.TestIronicLegacy` | src/client.rs:419-423 | `{"error_message": "{\"faultstring\": \"I failed\"}"}` yields "I failed" by one level of decoding |
| `Client.BuilderCallsKeepTarget` | src/client.rs:252-304 | any chain of configuration calls keeps the client, method and URL, and appends every query call's pairs in order |
| `Client.CloneIsIndependent` | src/client.rs:363-368 | configuring a clone starts from the original's query and client and only appends to its own copy |
| `Identity.TokenEndpoint` | src/identity.rs:120-124 | the endpoint is the URL's serialization followed by `/auth/tokens` when the path already ends in `/v3`, and by `/v3/auth/tokens` otherwise |
| `Identity.TokenEndpointRule` | src/identity.rs:120-124 | for every URL, the endpoint is the serialization plus `/auth/tokens` when the path ends in `/v3`, else plus `/v3/auth/tokens` |
| `Identity.TokenEndpointShape` | src/identity.rs:120-124 | the endpoint is the URL's serialization plus `/auth/tokens` when the path ends in `/v3`, else plus `/v3/auth/tokens`; either way it ends in `/v3/auth/tokens` |
| `Identity.TokenEndpointExample` | src/identity.rs:383-385 | `http://127.0.0.1:8080/identity` gives `http://127.0.0.1:8080/identity/v3/auth/tokens` |
| `Identity.TokenEndpointOfRootPath` | src/identity.rs:120-124 | a bare host URL gives a doubled slash before `v3` |
| `Identity.TokenFromResponse` | src/identity.rs:284-326 | a missing header is `InvalidResponse` "Missing X-Subject-Token header"; a non-text header is `InvalidResponse` "Invalid X-Subject-Token header"; only then does a body error apply; on success the token's value is the header text and its body is the decoded token |
| `Identity.NonTextHeaderRejected` | src/identity.rs:286-299 | a header containing a byte that is not visible ASCII is rejected, whatever the body |
| `Identity.RefreshOutcome` | src/identity.rs:190-210 | a request is sent iff the cache is not valid; without one the result is success and the cache unchanged; a failure leaves the cache unchanged; a success leaves a token cached, and after a request it is the token read from the response |
| `Identity.RefreshKeepsValidToken` | src/identity.rs:191-196 | more than 10 minutes left: success, no request, cache unchanged |
| `Identity.RefreshRequestsWhenStale` | src/identity.rs:197-208 | an empty cache, or 10 minutes or less left (exactly 10 included), sends a request |
| `Identity.RefreshFailureKeepsCache` | src/identity.rs:198-208 | a failed request or an unreadable token leaves the cache untouched and returns that error |
| `Identity.RefreshStoresIssuedToken` | src/identity.rs:204-207 | a readable token from a sent request replaces the cache |
| `Identity.RefreshSuccessLeavesToken` | src/identity.rs:213-226 | after a successful refresh a token is cached, so the `unwrap` in `get_token`/`get_catalog` cannot fail |
| `Identity.RefreshIdempotent` | src/identity.rs:191-207 | a refresh after a successful one, while the new token is valid, sends nothing and changes nothing |
| `Identity.RefreshMayStoreShortLivedToken` | src/identity.rs:204-207 | a newly issued token is cached even when it is itself within the 10-minute window |
| `Identity.Password.constructor` | src/identity.rs:119-134 | the token endpoint follows the suffix rule; the auth document holds the user, password and domain with method `password` and no scope; no region; empty cache |
| `Identity.Password.UserName` | src/identity.rs:137-141 | the user name held by the auth document |
| `Identity.Password.Region` | src/identity.rs:231-234 | the region set on the object, if any |
| `Identity.Password.SetRegion` | src/identity.rs:144-149 | only the region changes, to the given one |
| `Identity.Password.SetProjectScope` | src/identity.rs:154-163 | only the scope of the auth document changes; identity and region stay |
| `Identity.Password.WithRegion` | src/identity.rs:167-173 | sets the region and returns the same object |
| `Identity.Password.WithProjectScope` | src/identity.rs:177-188 | sets the project scope and returns the same object |
| `Identity.Password.DoRefresh` | src/identity.rs:190-210 | result and new cache follow the refresh rule; a request to the token endpoint with the auth document as JSON is issued exactly when the cache is not valid |
| `Identity.Password.Refresh` | src/identity.rs:279-281 | result and new cache are those of `do_refresh`; a token request to the token endpoint with the auth document is sent iff the cache was not valid |
| `Identity.Password.GetToken` | src/identity.rs:212-216 | refresh, then on success the cached token's value; on failure the refresh error |
| `Identity.Password.GetCatalog` | src/identity.rs:218-227 | refresh, then on success the cached token's catalog; on failure the refresh error |
| `Identity.Password.Request` | src/identity.rs:237-247 | on success a request for the method and URL whose only header is `x-auth-token` with the cached token |
| `Identity.Password.GetEndpoint` | src/identity.rs:250-277 | endpoint selection gets the default interface when none is given; its errors propagate; an unparsable URL is `InvalidResponse` "Invalid URL <url> for <service> - <reason>" |
| `Identity.NewWithClient` | src/identity.rs:105-135 | an auth URL that fails to parse gives that error; otherwise a fresh object in the initial state |
| `Identity.IdentityCreateExample` | src/identity.rs:354-387 | the crate's construction test: URL, user, password, domain, method, project scope and token endpoint are as given, and no region is set |
| `Config.PushPath` | src/config.rs:67-68 | pushing a relative path keeps the base as prefix and the relative path as suffix, with exactly one `/` between them when the base is non-empty and does not end in one, and nothing otherwise |
| `Config.Candidates` | src/config.rs:58-82 | the places searched: the current directory first, the home directory second only when there is one, the system directory last |
| `Config.Probe` | src/config.rs:59-62 | a place finds something only if its path is a file; the home and system files are reported as they are, the current-directory file canonicalized |
| `Config.FirstFound` | src/config.rs:58-82 | whatever is found was found by one of the places searched |
| `Config.FirstFoundIsFirst` | src/config.rs:58-82 | the first place that finds something decides the result |
| `Config.FirstFoundNone` | src/config.rs:58-82 | nothing is found iff no place finds anything |
| `Config.FindConfig` | src/config.rs:58-82 | the result is the first find among current directory, home directory (if any), system directory |
| `Config.CurrentDirectoryWins` | src/config.rs:59-62 | a current-directory file that canonicalizes gives its canonical path |
| `Config.UncanonicalizableFallsThrough` | src/config.rs:60-65 | a current-directory file that cannot be canonicalized is passed over |
| `Config.NoHomeSkipsHome` | src/config.rs:67-74 | without a home directory only the current and system directories are searched |
| `Config.HomeBeforeSystem` | src/config.rs:67-71 | the home file wins over the system file when the current directory finds nothing |
| `Config.HomePathExample` | src/config.rs:68 | `/home/user` gets `/.config/openstack/clouds.yaml` appended |
| `Config.LoadCloud` | src/config.rs:86-109 | every failure is `InvalidConfig` without a status: not found, "Cannot read config.yaml: ", "Cannot parse clouds.yaml: ", "No such cloud: "; success iff the file is found, opened, parsed and names the cloud, and then the result is that cloud's entry |
| `Config.SettingsOf` | src/config.rs:111-124 | the auth URL, user name and password are the cloud's; a given user domain is kept; no project name means no scope |
| `Config.NoConfigFileFails` | src/config.rs:86-91 | no file anywhere is `InvalidConfig` "clouds.yaml was not found in any location" |
| `Config.CloudLookup` | src/config.rs:105-109 | an unknown cloud is `InvalidConfig` "No such cloud: <name>"; a known one gives its entry |
| `Config.DomainsDefault` | src/config.rs:112-117 | missing user and project domains become `Default`; given ones are kept |
| `Config.ScopeAndRegionOnlyWhenNamed` | src/config.rs:119-124 | project scope iff a project name is given (a project domain alone is ignored); region iff a region name is given |
| `Config.FromConfig` | src/config.rs:85-127 | load errors propagate as themselves; otherwise the result is a fresh authentication with the cloud's URL, user, defaulted domains, scope and region and an empty cache, or the URL parse error |

## Left out

- HTTP transport and async machinery: `AuthenticatedClient::new`, `authenticate`, `get_endpoint`, `refresh`, `request`, `send`, `send_unchecked`, `send_unchecked_to` and `fetch` only delegate or do network I/O. The network's answer to a token request is the `send` parameter.
- `fetch_paginated` and `FetchNext::fetch_next` belong to the pagination stream, whose module is not part of this model.
- `url::merge` (used by `send_unchecked_to`) is not part of this model.
- `catalog::find_endpoint` and its region rule are not part of this model; it is the `findEndpoint` parameter.
- The `protocol` token and catalog types are not part of this model. Decoding the token body is the `body` field of `TokenResponse`.
- `ValueCache` and the `Arc` sharing exist for concurrent access. The cache is a plain optional field, so races between concurrent refreshes are not modelled.
- Time is whole seconds rather than chrono's sub-second durations.
- The mapping from a status code to an error kind lives in the crate's error module, which is not part of this model. The kind is recorded as `FromStatus(code)`.
- `AuthType::default_endpoint_interface` is defined outside the modelled files. The model takes it to be `public`.
- Converting an HTTP-library error into the crate's error (`?` on `into_url`, reading a body, decoding JSON) is not modelled. Such errors arrive ready-made in the parameters.
- JSON and YAML text parsing, URL parsing and file I/O are parameters. So the unit tests' premises state what the JSON parser returns for each literal.
- The hashed `Debug` output of `Token`, and logging (`println!`, `trace!`, `debug!`, `warn!`, `error!`) are left out. Of the getters, only `user_name` and `region` are modelled, as `UserName()` and `Region()`; `auth_url` is read as the `authUrl` field.
- Builder calls model reqwest's behaviour as plain value updates. Header-name validation, URL-encoding of query pairs and serialization failures are not modelled.
- Header names are compared as written, without the HTTP library's lower-casing. So `WithJson` after a header `Content-Type` adds a second content type, where reqwest would add none.
- Query pairs are kept in the request's `query` field instead of being written into its URL. So "keeps the URL" in `BuilderCallsKeepTarget` means the URL without the builder's query pairs.
- `Identity.Password.Request`: the token string is attached as a header as it is; HeaderValue validation is not repeated, because the token came from a visible-ASCII header.
