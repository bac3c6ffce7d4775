# Adopta Verde Bagua: image proxy and adoption form, in Dafny

This project models the parts of the Adopta Verde Bagua web site that carry
logic, and proves what they promise.

* **The image proxy endpoint** (`GET /api/image?url=...`). It fetches a
  remote image on behalf of the browser and passes it on. It refuses
  URLs that are not http or https, and hosts that look local: `localhost`
  and the `.localhost`, `.local` and `.internal` suffixes, anything that
  looks like an IPv6 literal, and dotted quads in the private or reserved
  IPv4 ranges. It refuses answers that are not `image/` media types, and
  bodies whose declared or measured length is over 5 MiB. It answers with one of the statuses 400, 502, 415,
  413 or 200. Without a declared length, it reads the body chunk by chunk
  into a bounded buffer. With one, it passes the body through.
  * `ImagePolicy` (`image_policy.dfy`) holds the host name block list, the
    URL gate and the media-type gate.
  * `ImageRoute` (`image_route.dfy`) holds the request pipeline. The
    specification is the function `Classify`, which gives the outcome of
    a request, and `Render`, which writes it as a response. The method
    `Get` follows the handler step by step: the read loop keeps a running
    total, and the final copy fills a preallocated array. `Get` is proved
    to produce `Render(Classify(...))`.
* **`toProxied`** (`ImageProxy`, `image_proxy.dfy`). It rewrites remote
  http(s) image addresses into proxy paths.
* **The adoption form.** `AdoptionModels` (`adoption_models.dfy`) holds the
  plant and adoption records and the WhatsApp message sent to the nursery
  manager. `AdoptionController` (`adoption_controller.dfy`) holds the
  form's validation rules and the `submit` steps that lead up to the
  notification.
* `JsString` (`jsstring.dfy`) holds the JavaScript string operations the
  rest relies on: ASCII `toLowerCase`, `trim`, `split`/`join`,
  `startsWith`/`endsWith`, and the decimal spelling of a length.

The outside world enters as parameters:

* The WHATWG URL parser is `parse: string -> Option<Url>`. `None` means
  the constructor throws.
* `Number(...)` on a header is `number: string -> JsNumber`.
* `encodeURIComponent` is `encode: string -> string`.
* The result of `fetch` is the value `Upstream`. It is either `Threw`, or
  a status, two headers, and the values the body reader yields before
  `done`.
* The current time is the string `now`.
* The manager's configured phone number is `managerPhone`.

Some consequences of the code as written are stated as lemmas:

* A declared `content-length` is trusted. When it does not read as more
  than 5 MiB, the body streams through unmeasured
  (`ImageRoute.DeclaredLengthTrusted`).
* An empty `content-length` counts as absent, so the body gets buffered.
* Host names are matched as text, and no name is resolved. The fully
  qualified `localhost.` (with its trailing root dot) is not blocked
  (`ImagePolicy.FullyQualifiedLocalhostPasses`).
* The two-octet test equals membership in the seven reserved CIDR blocks
  only for real addresses (every octet at most 255). Quads with larger
  octets still match the pattern (`ImagePolicy.ReservedPrefixIsCidr`).

## Model

| member | source | states |
|---|---|---|
| `ImagePolicy.IsBlockedHostnameExactly` | src/app/api/image/route.ts:17-52 | A host name is blocked exactly when its lower-cased form is `localhost` or ends in a local suffix, or looks like an IPv6 literal, or is four 1-3 digit groups joined by dots whose first two groups fall in a reserved prefix; every other name passes |
| `ImagePolicy.BlockedIgnoresCase` | src/app/api/image/route.ts:18 | Blocking does not depend on letter case |
| `ImagePolicy.LocalSuffixBlocked` | src/app/api/image/route.ts:20-26 | Any name ending in `.localhost`, `.local` or `.internal`, in either case, is blocked |
| `ImagePolicy.FullyQualifiedLocalhostPasses` | src/app/api/image/route.ts:20-26 | `localhost` is blocked, but `localhost.` with the root dot is not |
| `ImagePolicy.Ipv6LiteralsBlocked` | src/app/api/image/route.ts:29 | Every name containing `:` or starting with `[` is blocked |
| `ImagePolicy.MatchDottedQuad` | src/app/api/image/route.ts:32-33 | A pattern match yields four groups of one to three digits that, joined by dots, spell the whole name |
| `ImagePolicy.MatchDottedQuadComplete` | src/app/api/image/route.ts:32-33 | Every dotted quad of 1-3 digit groups matches, and the match yields exactly its groups |
| `ImagePolicy.QuadJudged` | src/app/api/image/route.ts:32-51 | A dotted quad is blocked exactly when its first two octets form a reserved prefix; the other two octets play no part |
| `ImagePolicy.ReservedPrefixIsCidr` | src/app/api/image/route.ts:36-49 | For octets up to 255, the two-octet test is exactly membership in 10/8, 127/8, 0/8, 169.254/16, 172.16/12, 192.168/16 or 100.64/10 |
| `ImagePolicy.PrivateSampleBlocked` | src/app/api/image/route.ts:47 | `192.168.1.1`, in a private range, is blocked |
| `ImagePolicy.LoopbackSampleBlocked` | src/app/api/image/route.ts:39 | `127.0.0.1` is blocked |
| `ImagePolicy.PublicSampleAllowed` | src/app/api/image/route.ts:51 | A public address passes |
| `ImagePolicy.ParseAndValidateUrl` | src/app/api/image/route.ts:54-63 | A URL comes back exactly when the parse succeeds, the scheme is `http:` or `https:` and the host is not blocked, and it is then the parsed URL; a failed parse gives none |
| `ImagePolicy.PickImageContentType` | src/app/api/image/route.ts:65-70 | A missing or empty header gives none; a result is a lower-case `image/` type with no `;` and no surrounding white space |
| `ImagePolicy.PickReadsFirstSegment` | src/app/api/image/route.ts:66-69 | For a non-empty header the result is the text before the first `;`, trimmed and lower-cased, kept exactly when it starts with `image/` |
| `ImagePolicy.PickImageContentTypeIdempotent` | src/app/api/image/route.ts:65-70 | The gate returns its own result unchanged |
| `ImagePolicy.PickIgnoresParameters` | src/app/api/image/route.ts:67 | Media-type parameters after `;` do not change the result |
| `ImagePolicy.PickIgnoresCase` | src/app/api/image/route.ts:67 | The result does not depend on the header's letter case |
| `ImageRoute.Get` | src/app/api/image/route.ts:72-196 | The handler answers `Render(Classify(...))`. It fetches exactly the validated URL, and nothing when validation fails. It cancels the reader only on the buffered path, at the first value that takes the total past `MAX_BYTES`. It reads the whole body when it sends bytes, and takes nothing from the body reader on every other path that does not cancel it: the 400s, 502s, 415, the declared-length 413 and the pass-through |
| `ImageRoute.ShapeResponse` | src/app/api/image/route.ts:106-195 | After the fetch, the answer follows the order: thrown error, status, media type, declared length, body |
| `ImageRoute.GateResponse` | src/app/api/image/route.ts:123-195 | The media-type and size gates give the specified answer. A 413 without cancelling happens only for a declared length. Nothing is taken from the body reader on the 415, the declared-length 413 or the pass-through |
| `ImageRoute.BufferedResponse` | src/app/api/image/route.ts:143-185 | Without a declared length: no body gives 502. The answer is 413 exactly when the reader was cancelled. A 200 answer carries the whole body |
| `ImageRoute.BufferBody` | src/app/api/image/route.ts:151-169 | The read loop cancels exactly when the stream holds more than `MAX_BYTES` bytes, at the first value that crosses the limit. Otherwise it returns the in-order concatenation of every chunk |
| `ImageRoute.CopyChunks` | src/app/api/image/route.ts:170-175 | Copying the chunks into an array of the measured length at running offsets yields their concatenation |
| `ImageRoute.StatusTable` | src/app/api/image/route.ts:75-195 | 200 exactly for an image; 400 for a missing or refused URL; 413 for too large; 415 for a non-image; 502 for fetch failure, upstream error or no body; every non-200 answer is a JSON error |
| `ImageRoute.RejectedBeforeFetch` | src/app/api/image/route.ts:74-88 | A missing, empty, unparsable or refused `url` gives 400, whatever the network would have returned |
| `ImageRoute.OnlyAllowedTargetsFetched` | src/app/api/image/route.ts:82-94 | Any answer other than 400 means the URL parsed as http(s) to a host not blocked |
| `ImageRoute.UpstreamErrorReported` | src/app/api/image/route.ts:116-121 | A non-2xx status gives 502 with that status in the body, whatever the headers and body |
| `ImageRoute.NonImageRefused` | src/app/api/image/route.ts:123-129 | A non-image type gives 415 before length or body are consulted |
| `ImageRoute.DeclaredOversizeRefused` | src/app/api/image/route.ts:131-140 | A declared length reading as more than `MAX_BYTES` gives 413 without looking at the body |
| `ImageRoute.DeclaredLengthTrusted` | src/app/api/image/route.ts:131-195 | A declared length not over the limit (NaN included) passes the body through unchanged, with type and cache headers and no length header |
| `ImageRoute.EmptyLengthBuffers` | src/app/api/image/route.ts:131-143 | An empty `content-length` is handled like a missing one: the body is buffered |
| `ImageRoute.BufferedLimit` | src/app/api/image/route.ts:142-185 | The buffered path gives 413 exactly when the body exceeds `MAX_BYTES`, and otherwise serves all of its bytes |
| `ImageRoute.BufferedLengthHeader` | src/app/api/image/route.ts:176-184 | The `content-length` of a buffered answer is a digit string that reads back as the number of bytes sent |
| `ImageRoute.SuccessHeaders` | src/app/api/image/route.ts:176-195 | Every 200 answer carries the fixed cache directives and a lower-case `image/` content type without parameters |
| `ImageRoute.ChunkingIrrelevant` | src/app/api/image/route.ts:151-175 | The buffered outcome depends only on the bytes, not on how they were chunked or on empty reads |
| `ImageProxy.ToProxied` | src/lib/imageProxy.ts:2-8 | `""` exactly for a missing or empty input; a case-insensitive `http://` or `https://` address becomes the proxy path with the encoded address; anything else is unchanged |
| `ImageProxy.ProxyPathIsLocal` | src/lib/imageProxy.ts:5 | A proxy path starts with `/` and is never taken for a remote address |
| `ImageProxy.ToProxiedIdempotent` | src/lib/imageProxy.ts:2-8 | Rewriting twice is rewriting once |
| `ImageProxy.RemoteHttpIgnoresCase` | src/lib/imageProxy.ts:4 | The scheme test ignores letter case |
| `ImageProxy.UpperCaseSchemeProxied` | src/lib/imageProxy.ts:4-5 | An upper-case `HTTPS://` address is proxied |
| `ImageProxy.NonHttpUnchanged` | src/lib/imageProxy.ts:7 | Any address not starting with `h` or `H` (a local path, a `data:` URL) is returned unchanged |
| `ImageProxy.LocalPathUnchanged` | src/lib/imageProxy.ts:7 | `/next.svg` is returned unchanged |
| `ImageProxy.MissingSlashUnchanged` | src/lib/imageProxy.ts:4-7 | `http:/example.org`, missing a slash, is returned unchanged |
| `AdoptionModels.MessageLines` | src/features/adoption/domain/models.ts:25-35 | The message has exactly eight lines |
| `AdoptionModels.BuildWhatsAppMessage` | src/features/adoption/domain/models.ts:23-36 | The message starts with the fixed header followed by the name line, and ends with the date line |
| `AdoptionModels.MessageLinesRecovered` | src/features/adoption/domain/models.ts:25-35 | When no field has a line feed, splitting the message on line feeds gives exactly the header and the seven labelled fields, verbatim and in order |
| `AdoptionModels.MessageIgnoresIdAndConsent` | src/features/adoption/domain/models.ts:23-36 | The id and the consent flag never affect the message |
| `AdoptionModels.AbsentReadsAsEmpty` | src/features/adoption/domain/models.ts:30-31 | An absent address or city reads like an empty one |
| `AdoptionModels.DateFromRecordOrClock` | src/features/adoption/domain/models.ts:24 | With a creation date the message does not depend on the clock; without one it ends with the current time |
| `AdoptionController.Issues` | src/features/adoption/presentation/pages/adoption/Adoption_controller.ts:9-18 | A field is reported exactly when it breaks its rule |
| `AdoptionController.ValidExactly` | src/features/adoption/presentation/pages/adoption/Adoption_controller.ts:9-18 | A form is valid exactly when plant id and name have at least 1 character, adopter name 2, phone 6, reason 10, and consent is true; address and city never matter |
| `AdoptionController.PhoneIsNotChecked` | src/features/adoption/presentation/pages/adoption/Adoption_controller.ts:13 | The phone rule counts characters only |
| `AdoptionController.Present` | src/features/adoption/presentation/pages/adoption/Adoption_controller.ts:56-57 | An empty string becomes absent; any other value is kept |
| `AdoptionController.Submit` | src/features/adoption/presentation/pages/adoption/Adoption_controller.ts:48-64 | An invalid form is rejected with all its issues before anything else. A valid form with a missing or empty manager phone fails before any message is built. Otherwise the message goes to that phone |
| `AdoptionController.SubmitMessage` | src/features/adoption/presentation/pages/adoption/Adoption_controller.ts:51-60 | The message carries the form's fields as typed, with the submission time as its date |

## Left out

- `ImageRoute.BufferBody`: the body is a stream that ends, so the read loop always reaches `done`. The code clears its timer as soon as `fetch` settles and sets no deadline on body reads, so an upstream that stalls mid-body, or keeps yielding values without ever reporting `done`, holds the handler indefinitely. Memory stays bounded by `MAX_BYTES`; time does not. The model cannot express this.
- Network and timers: `fetch`, the `AbortController` and the 8-second timeout are not modelled. `REQUEST_TIMEOUT_MS` is kept as a constant only. A timeout while waiting for the response headers shows up as `Threw`.
- Redirects are followed by `fetch` without checking the new host. The model does not claim they are validated.
- DNS: names are judged as text. A public name that resolves to a private address passes, as it does in the code.
- The WHATWG URL parser (authority parsing, IDNA, percent-decoding) is a parameter. So are `Number(...)` on a header and `encodeURIComponent`.
- `toLowerCase` is modelled on ASCII letters only. Host names from the URL parser are ASCII, and the `i` flag of the scheme test folds ASCII letters only.
- `ImagePolicy.PickImageContentType` lower-cases ASCII letters only. The `image/` verdict is the same as in JavaScript, but a header with non-ASCII capitals (Latin-1 `É`, say) is sent on with them kept, where JavaScript would lower-case them too.
- String lengths in the form rules count code points. JavaScript counts UTF-16 code units, so the two differ for characters outside the Basic Multilingual Plane.
- Exceptions from `reader.read()` and `reader.cancel()` are not modelled. The code ignores a failing `cancel`. A failing `read` makes the handler throw.
- The text of the JSON bodies is not modelled. A body is the error string plus, for an upstream error, the status.
- `AdoptionController.Submit` returns the outcome instead of performing it. Sending the message (`WaMeWhatsAppAdapter`, `window.location`) is not part of this model. Neither are the controller singleton, `initialize` and `loadPlants`.
- The UI store, the repositories, the React pages and the inline copies of `toProxied` in the pages are not part of this model.
- `ImagePolicy.IsBlockedHostname` carries no `ensures` of its own. Its meaning is stated by `ImagePolicy.IsBlockedHostnameExactly`.
