# SendGrid mail transport for Laravel, modelled in Dafny

This project models how the laravel-sendgrid package turns a Swift Mailer
message into the JSON body of a SendGrid v3 `mail/send` request.

`SendGridPayloadExtractor::extract` builds a fresh extractor and runs a fixed
chain of builder steps: `to`, `cc`, `bcc`, `from`, `body`, `replyTo`,
`subject`, `headers` and `attachments`. Each step writes one key of the
`$payload` array:

- Address arrays keyed by email become `{email, name}` objects. `from` and
  `reply_to` take the first entry. The `personalizations` lists `to`, `cc`
  and `bcc` take every entry.
- The `content` list holds the `text/plain` and `text/html` MIME children. It
  gets the main body as an HTML entry when no HTML child exists. It is then
  ordered plain text first.
- The `headers` object holds `X-Message-ID` and every string-bodied header
  whose lower-cased name SendGrid does not reserve. The step also adds an
  `X-Message-ID` header to the message itself.
- `attachments` holds each attachment child, base64-encoded. The key is set
  only when there is at least one.

`SendgridTransport::send` posts that payload to `mail/send`. The body is
shallow-merged with the configured `options`, and the request carries an
`Authorization: Bearer <api_key>` header. `send` returns the number of
recipients.

Layout, one module per file:

- `wrappers.dfy`, `json.dfy`: `Option`/`Result`, and PHP values as JSON
  values (`Json.Value`).
- `sequences.dfy`: filtering and mapping of sequences. These are the shapes
  of the source's `foreach` loops and of `array_filter`/`array_map`. It also
  holds the index characterisation ("exactly the matching elements, in
  order") that the content and attachment properties use.
- `base64.dfy`: `base64_encode` per section 4 of RFC 4648, with a decoder
  and the round-trip proof.
- `swift_message.dfy`: the Swift message as the extractor sees it. It is a
  class whose header set is the only mutable field.
- `addresses.dfy`, `contents.dfy`, `headers.dfy`, `attachments.dfy`: the
  specification functions of the builder steps, and their properties.
- `extractor.dfy`: the `SendGridPayloadExtractor` class. Each step is a
  method that updates `payload`. `getMessageParts`, `headers` and
  `attachments` keep the source's loops. `Extract` is proved to produce
  `Payload(message, headers-before)`.
- `transport.dfy`: the `SendgridTransport` class, the request it builds and
  an HTTP client that records what was posted.

The code builds `personalizations` as one object with keys `to`, `cc` and
`bcc` (src/SendGridPayloadExtractor.php:91, 104, 118). The package's tests
expect a list of single-key objects instead. The model follows the code.

Some behaviour of the code is kept as written:

- A message with no body but a `text/plain` child gets an appended HTML entry
  whose value is `null` (`Contents.MessagePartsAppendsBody`).
- A message without a subject gets `"subject": null`.
- An empty `from` array maps to email and name `null`. PHP also raises an
  undefined-key warning there, which the model does not capture (see Left
  out).

## Model

| member | source | states |
|---|---|---|
| `Addresses.MapSingleAddress` | src/SendGridPayloadExtractor.php:284-290 | for a non-empty address array the result is an object with exactly the keys `email` and `name` that reads back as its first entry; for an empty one, email and name are null |
| `Addresses.MapMultipleAddress` | src/SendGridPayloadExtractor.php:298-306 | a list with one object per address, same length, and the i-th object has exactly the keys `email` and `name` and reads back as the i-th address |
| `Addresses.MapMultipleAddressRoundTrip` | src/SendGridPayloadExtractor.php:298-306 | reading the whole list back yields exactly the input addresses: none lost, added or reordered |
| `Addresses.SingleIsFirst` | src/SendGridPayloadExtractor.php:284-290 | the single mapping is the first element of the multiple mapping |
| `Contents.HasNotHtmlPart` | src/SendGridPayloadExtractor.php:270-277 | the `array_filter` test is true exactly when no entry has type `text/html` |
| `Contents.Comparator` | src/SendGridPayloadExtractor.php:249-259 | the closure answers only -1 or 1, -1 whenever the first entry is plain text, and 1 when it is not and the second is not `text/x-amp-html` |
| `Contents.PlainFirst` | src/SendGridPayloadExtractor.php:249-259 | the sorted list is a permutation of its input, and every `text/plain` entry precedes every other entry |
| `Contents.PlainFirstStable` | src/SendGridPayloadExtractor.php:249-259 | the model's choice of order within each class: plain entries keep their relative order, and so do the other entries (PHP's own order within a class is not modelled, see Left out) |
| `Contents.CollectedInChildOrder` | src/SendGridPayloadExtractor.php:225-236 | collected entries are exactly the MIME children of type `text/plain` or `text/html`, each once, in child order, with that child's type and body |
| `Contents.MessagePartsMimes` | src/SendGridPayloadExtractor.php:225-247 | every content entry has type `text/plain` or `text/html` |
| `Contents.MessagePartsNull` | src/SendGridPayloadExtractor.php:238-240 | content is null exactly when the body is null and no child is a plain or HTML MIME part |
| `Contents.MessagePartsHasHtml` | src/SendGridPayloadExtractor.php:242-247 | a non-null content list always holds a `text/html` entry |
| `Contents.MessagePartsPermutation` | src/SendGridPayloadExtractor.php:242-261 | the content list is a reordering of the collected entries, plus one HTML entry holding the body when none was collected |
| `Contents.MessagePartsAppendsBody` | src/SendGridPayloadExtractor.php:242-247 | when no HTML part was collected, the list holds exactly one HTML entry, whose value is the message body |
| `Contents.MessagePartsPlainFirst` | src/SendGridPayloadExtractor.php:249-259 | in the content list every `text/plain` entry comes before every `text/html` entry |
| `Contents.MessagePartsRespectComparator` | src/SendGridPayloadExtractor.php:249-259 | no content entry has type `text/x-amp-html`, so the comparator's amp branch never applies, and no pair of entries is left in an order that the comparator reverses from both sides |
| `HeaderFilter.MessageIdNotReserved` | src/SendGridPayloadExtractor.php:32-35 | `X-Message-ID` lower-cased is not on the reserved list |
| `HeaderFilter.HeaderMapKeys` | src/SendGridPayloadExtractor.php:205-210 | a name is a key exactly when it was there at the start or is the name of a string-bodied, unreserved header |
| `HeaderFilter.HeaderMapLastWins` | src/SendGridPayloadExtractor.php:205-210 | the last admitted header of a name decides its value: a later header overwrites an earlier one |
| `HeaderFilter.HeaderMapKeepsStart` | src/SendGridPayloadExtractor.php:199-210 | a name that no admitted header carries keeps its starting value |
| `HeaderFilter.HeaderMapValues` | src/SendGridPayloadExtractor.php:205-210 | every value is the starting value or the body of an admitted header with that name |
| `HeaderFilter.MessageIdPresent` | src/SendGridPayloadExtractor.php:199-210 | the `headers` object always has `X-Message-ID` equal to the message id |
| `HeaderFilter.NoReservedKeys` | src/SendGridPayloadExtractor.php:207 | no key of the `headers` object has a lower-case form on the reserved list |
| `HeaderFilter.OnlyStringHeaders` | src/SendGridPayloadExtractor.php:207-208 | every key other than `X-Message-ID` comes from a message header with a string body of that name and value |
| `HeaderFilter.AdmittedHeadersPresent` | src/SendGridPayloadExtractor.php:205-210 | every string-bodied unreserved header appears, with the body of the last header of that name |
| `HeaderFilter.HeadersJson` | src/SendGridPayloadExtractor.php:199-208 | the `headers` object has the same keys as the header map, each with a string value |
| `AttachmentFiles.EntriesInChildOrder` | src/SendGridPayloadExtractor.php:171-183 | one entry per attachment child, in child order, with that child's filename, type, disposition and id; other children are skipped |
| `AttachmentFiles.EntriesDecode` | src/SendGridPayloadExtractor.php:177 | each entry's content decodes back to its attachment's body |
| `AttachmentFiles.EntriesEmpty` | src/SendGridPayloadExtractor.php:185-187 | the list is empty exactly when no child is an attachment |
| `Base64.Encode` | src/SendGridPayloadExtractor.php:177 | the encoding is 4 characters per started group of 3 bytes |
| `Base64.RoundTrip` | src/SendGridPayloadExtractor.php:177 | decoding `base64_encode` of any byte string gives that string back |
| `Extractor.SetNested` | src/SendGridPayloadExtractor.php:91 | a nested write sets the inner key, keeps the other inner keys and every other top-level key |
| `Extractor.RecipientSteps` | src/SendGridPayloadExtractor.php:89-122 | the `to`, `cc` and `bcc` steps on an empty payload leave exactly the `personalizations` object |
| `Extractor.KeyUpdates` | src/SendGridPayloadExtractor.php:58-70 | writing the keys in the chain's order gives the assembled payload |
| `Extractor.PayloadKeys` | src/SendGridPayloadExtractor.php:58-70 | `personalizations`, `from`, `content`, `subject` and `headers` are always set; `reply_to` exactly when the reply-to array exists; `attachments` exactly when some child is an attachment |
| `Extractor.PersonalizationsOfPayload` | src/SendGridPayloadExtractor.php:89-94 | the payload's `personalizations` is the recipients object |
| `Extractor.PersonalizationKeys` | src/SendGridPayloadExtractor.php:101-122 | `personalizations` holds `to` always, `cc` exactly when `getCc()` is an array, `bcc` exactly when `getBcc()` is not null, each the mapped list |
| `Extractor.PayloadContentNull` | src/SendGridPayloadExtractor.php:155-160 | the payload's `content` is null exactly when the body is null and no child is a plain or HTML part |
| `Extractor.PayloadHeaders` | src/SendGridPayloadExtractor.php:197-213 | the payload's `headers` holds `X-Message-ID` with the message id and no reserved name |
| `Extractor.SendGridPayloadExtractor.ToArray` | src/SendGridPayloadExtractor.php:47-50 | `get()` and `toArray()` return the payload built so far, unchanged |
| `Extractor.SendGridPayloadExtractor.constructor` | src/SendGridPayloadExtractor.php:37-40 | a new extractor holds the message and an empty payload |
| `Extractor.SendGridPayloadExtractor.From` | src/SendGridPayloadExtractor.php:77-82 | sets `from` to the single-address mapping of `getFrom()`, nothing else changes |
| `Extractor.SendGridPayloadExtractor.To` | src/SendGridPayloadExtractor.php:89-94 | sets `personalizations.to`, nothing else changes |
| `Extractor.SendGridPayloadExtractor.Cc` | src/SendGridPayloadExtractor.php:101-108 | sets `personalizations.cc` only when `getCc()` is an array |
| `Extractor.SendGridPayloadExtractor.Bcc` | src/SendGridPayloadExtractor.php:115-122 | sets `personalizations.bcc` only when `getBcc()` is not null |
| `Extractor.SendGridPayloadExtractor.ReplyTo` | src/SendGridPayloadExtractor.php:129-136 | sets `reply_to` only when `getReplyTo()` is an array |
| `Extractor.SendGridPayloadExtractor.Subject` | src/SendGridPayloadExtractor.php:143-148 | sets `subject` to the message subject, or null when the message has none |
| `Extractor.SendGridPayloadExtractor.Body` | src/SendGridPayloadExtractor.php:155-160 | sets `content` to the message parts, or null |
| `Extractor.SendGridPayloadExtractor.GetMessageParts` | src/SendGridPayloadExtractor.php:220-262 | the loop's result is the content specification, whose properties are the `Contents` lemmas |
| `Extractor.SendGridPayloadExtractor.Headers` | src/SendGridPayloadExtractor.php:197-213 | appends the `X-Message-ID` header to the message and sets `headers` to the filtered map of the header set before that append, plus `X-Message-ID` |
| `Extractor.SendGridPayloadExtractor.Attachments` | src/SendGridPayloadExtractor.php:167-190 | sets `attachments` to the entry list when it is non-empty, and leaves the payload unchanged otherwise |
| `Extractor.SendGridPayloadExtractor.Extract` | src/SendGridPayloadExtractor.php:58-70 | the payload returned by `toArray()` after the chain is `Payload` of the message and its original headers, and the message has gained `X-Message-ID` |
| `Swift.Message.AddTextHeader` | src/SendGridPayloadExtractor.php:203 | the new header is listed after the existing ones |
| `Transport.Options` | src/Transport/SendgridTransport.php:64 | a missing or null `options` entry is the empty array; otherwise it is the entry itself |
| `Transport.IndexKeys` | src/Transport/SendgridTransport.php:64 | list options become keys `"0"`..`"n-1"` holding the list's items |
| `Transport.ArrayMerge` | src/Transport/SendgridTransport.php:64 | the merge succeeds exactly for array options; object options replace same-named payload keys, keep the others and add nothing else; list options add keys `"0"`..`"n-1"` with their items, keep every other payload key with its value, and add no other keys |
| `Transport.BuildRequest` | src/Transport/SendgridTransport.php:63-67 | a request is built exactly when the merge succeeds; it goes to `mail/send` with the merged body and only the bearer `Authorization` header |
| `Transport.Authorization` | src/Transport/SendgridTransport.php:66 | the header value is `Bearer ` followed by `config['api_key']`, or empty after it when the key is missing |
| `Transport.RequestPathAndAuthorization` | src/Transport/SendgridTransport.php:63-67 | every request goes to `mail/send` with exactly the bearer `Authorization` header |
| `Transport.NoOptionsBodyIsPayload` | src/Transport/SendgridTransport.php:64 | without `options`, the JSON body equals the extractor payload exactly |
| `Transport.OptionsKeysWin` | src/Transport/SendgridTransport.php:64 | associative options replace same-named top-level payload keys, keep all other payload keys, and add nothing else |
| `Transport.ScalarOptionsFail` | src/Transport/SendgridTransport.php:64 | options that are not an array make the merge fail |
| `Transport.DistinctEmailsCount` | src/Transport/SendgridTransport.php:72 | distinct recipient addresses are each counted once |
| `Transport.ExpectedRecipientCounts` | tests/SendgridTransportTest.php:120 | one To plus one Bcc address count 2; a single To counts 1 |
| `Transport.Client.Post` | src/Transport/SendgridTransport.php:63-68 | a post appends the request to the client's record |
| `Transport.SendgridTransport.constructor` | src/Transport/SendgridTransport.php:45-50 | stores client, config and mailer options unchanged; the options default to empty |
| `Transport.SendgridTransport.Send` | src/Transport/SendgridTransport.php:57-73 | extracts the payload of the same message, posts the merged request once and returns the recipient count; on a merge failure nothing is posted |

## Left out

- The HTTP call is not modelled: Guzzle's `post`, the base URI and the timeout
  (src/Transport/SendgridTransport.php:16-21). It is network I/O. The model
  records each request in `Transport.Client` instead.
- The `beforeSendPerformed` and `sendPerformed` events are not modelled. They
  belong to Laravel's `Transport` base class, which is not part of this model.
- Transport.NumberOfRecipients: Laravel's `numberOfRecipients` is not part of
  this model either. It is defined here as the number of distinct email
  keys across the To, Cc and Bcc arrays, which matches the expected counts.
- src/LaravelSendgridServiceProvider.php is not part of this model. It only
  registers the transport with the mail manager.
- src/PayloadExtractor.php is not part of this model. It is an unfinished
  stub whose `extract` returns nothing.
- Swift Mailer internals are abstracted. Header body models are reduced to
  "string" or "structured". Children are reduced to a kind (MIME part,
  attachment, other).
- Swift's `getAll()` groups headers by name. The model keeps one flat list in
  insertion order. Only the order among headers of the same name affects the
  result, and that order is the same in both.
- A message without a To header is not modelled. There `getTo()` is null and
  PHP raises a `TypeError`; the model's `to` is always an address list.
- Contents.PlainFirst: the relative order that PHP's `usort` gives to entries
  of the same class is not modelled. The comparator answers -1 for two plain
  entries whichever comes first and never answers 0, so the order among the
  `text/plain` entries, and among the `text/html` entries, depends on PHP's
  sort algorithm (for three entries `[html, plain1, plain2]` it can give
  `[plain2, plain1, html]`). The model keeps child order within each class
  (a stable partition). Only "every plain entry first, a permutation" is
  the source's promise.
- Contents.PlainFirstStable: states the model's stable choice of order within
  the plain and the html entries, not the order PHP's `usort` produces.
- The key order of PHP associative arrays is not modelled. Payload objects are
  maps, as in their JSON encoding.
- Transport.Authorization: a non-string `api_key` is not modelled. The
  configuration is a map of strings. When `api_key` is missing, PHP raises an
  undefined-key warning before printing `Bearer `. Laravel's error handler
  may turn that warning into an exception, so nothing would be posted. The
  model does not capture the warning and builds the request with `Bearer `.
- Addresses.MapSingleAddress: for an empty address array, PHP's
  `$address[key($address)]` reads an undefined key and raises a warning
  before giving `null`. Laravel's error handler may turn that warning into
  an exception, so `send` would fail. The model does not capture the warning
  and returns email and name `null`.
- Transport.IndexKeys: option keys that are numeric strings are not modelled.
  PHP would renumber them in `array_merge`.
- Transport.ArrayMerge: a payload key that is a decimal string such as `"0"`
  is overwritten by list options in the model. PHP would renumber it and keep
  both values. The extractor's payload never has such a key.
- Transport.ArrayMerge: the error path follows PHP 8, where `array_merge`
  with a non-array argument raises a `TypeError` and nothing is posted. On
  PHP 7 it warns, returns `null`, and `post` still runs with a null JSON
  body; that behaviour is not modelled (also in `Transport.ScalarOptionsFail`
  and `Transport.SendgridTransport.Send`).
- `strtolower` is modelled on ASCII letters only.
- Base64.Encode: PHP strings are byte strings. The model takes each
  character's code modulo 256, and the round trip is stated for strings whose
  characters are all below 256.
