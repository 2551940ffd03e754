# Paymentsense Gateway for WooCommerce — a Dafny model of the protocol core

This project models the client-side protocol logic of the Paymentsense payment gateway plugin for
WooCommerce. The plugin offers two payment methods:

- **Hosted**: the customer pays on the Paymentsense Hosted Payment Form, and the gateway reports the
  result back by POST or by a server-to-server notification.
- **Direct**: the shop sends card transactions to the gateway's entry points itself, including
  3-D Secure authentication.

Each core PHP file becomes one module or more. Every framework or network call becomes an input, an
oracle or a small class that records its effects.

| module | file | models |
|---|---|---|
| `PhpStrings` | php_strings.dfy | the PHP string semantics the plugin relies on: `empty()`, `is_numeric`, loose `==` on numeric strings, `str_replace`, `explode`/`implode`, `strtoupper`/`strtolower`, `substr`, `%+d` |
| `PhpArrays` | php_arrays.dfy | PHP arrays as insertion-ordered association lists (`Assoc`): overwriting a key keeps its position, and `array_merge` keeps the left order |
| `HashDigest` | hash_digest.dfy | `get_http_var`, `build_variables_string`, `calculate_hash_digest`, `is_hash_digest_valid` |
| `XmlExtract` | xml_extract.dfy | `get_xml_value`, `get_xml_cross_reference` and the `PreviousTransactionResult` match, as leftmost-shortest searches with case-insensitive tags |
| `FieldFilter` | field_filter.dfy | `html_decode`, `filter_unsupported_chars`, `replace_ampersand`, `apply_length_restrictions` |
| `Transport` | transport.dfy | `send_transaction`: the port-4430 abort guard, a missing cURL, and a network oracle; `get_hostname`; `should_retry_txn`; the endpoint failover schedule and its trail; `add_datetime_pair` |
| `Shop` | shop.dfy | the WooCommerce collaborators: `Order` (status, notes, post meta) and `Storefront` (notices, session, cart) |
| `Gateway` | gateway.dfy | the base gateway class: the failover loop, `perform_test_transaction`, `process_refund`, `build_hpf_fields`, `check_gateway_settings`, and the connection-status code and message |
| `Diagnostics` | diagnostics.dfy | the pure decision tables: the status-code fold, status messages, `convert_array_to_string`, system-time status, hosted-form classification, merchant checks, the settings tables and the payment time frame |
| `Hosted` | hosted.dfy | `WC_Paymentsense_Hosted`: delivery dispatch, server notification, customer redirect, POST response, the order-received text, reply output, the receipt page and the settings message |
| `Direct` | direct.dfy | `WC_Paymentsense_Direct`: payment fields, field validation, the sale, 3-D Secure and the settings message |
| `Plugin` | plugin.dfy | the plugin bootstrap: the incompatible-plugin list, the compatibility guard and gateway registration |

The network is a `Network(curlEnabled, reply)` value. `reply(k, url, payload)` is the exchange returned
by the k-th send, so every failover run is a deterministic function of the oracle and the send count.

Each failover loop is a `while` loop in `Gateway.Gateway.Failover`. That loop is proved equal to the
function `Transport.Trail`, which follows the schedule `Transport.Schedule`. What each caller does with
the attempts is a left fold over the trail:

- `ProbeLog` and `CredentialsAfter` for the probe;
- `RefundFold` for refunds;
- `SaleFold` for the sale;
- `SecureHandled` for 3-D Secure.

Order and storefront effects are recorded as `OrderEvent` and `MetaOp` sequences on the `Shop.Order` and
`Shop.Storefront` objects. `StatusAfter` and `ApplyMeta` give their meaning.

The PHP `switch` statements compare status codes loosely: '00' matches '0', and ' 0' and '0.0' match
too. The model keeps that comparison (`PhpStrings.LooseEquals`, an exact decimal comparison). The
`===` and `!==` checks stay exact string equality.

## Model

| member | source | states |
|---|---|---|
| PhpStrings.SplitJoin | paymentsense-gateway-for-woocommerce.php:84-85 | `explode` undoes `implode` with the same one-character separator when no part contains it |
| PhpStrings.SignedDecimalRoundTrip | includes/class-paymentsense-base.php:1569-1580 | the `%+d` rendering of the clock difference always carries its sign and reads back as the same integer |
| PhpStrings.DigitStringIsNumeric | includes/class-paymentsense-base.php:773-777 | a non-empty digit string (what a `[0-9]+` extraction yields) is numeric and has its decimal value |
| PhpStrings.LooseEqualsDigits | includes/class-wc-paymentsense-hosted.php:544-567 | for digit strings the `switch` comparison holds exactly when the decimal values are equal, so '00' selects the '0' case |
| PhpArrays.LookupPut | includes/class-paymentsense-base.php:683-688 | after an array assignment the key reads back the assigned value |
| PhpArrays.LookupPutOther | includes/class-paymentsense-base.php:683-688 | an array assignment leaves every other key's value unchanged |
| PhpArrays.PutUnique | includes/class-paymentsense-base.php:683-688 | an array assignment never duplicates a key |
| PhpArrays.MergeDisjoint | includes/class-paymentsense-base.php:476-481 | `array_merge` of arrays with disjoint keys is the left array followed by the right one, in order |
| HashDigest.GetHttpVar | includes/class-paymentsense-base.php:908-926 | the method argument wins over the request method; a GET returns the query value and a POST the form value when the key is present; otherwise the default |
| HashDigest.RequestPairs | includes/class-paymentsense-base.php:314-316 | one (name, posted value) pair per listed field, in list order |
| HashDigest.FieldsFor | includes/class-paymentsense-base.php:278-311 | a field list exists exactly for request types '0' (notification) and '1' (customer redirect) |
| HashDigest.BuildVariablesString | includes/class-paymentsense-base.php:276-319 | the foreach result equals the canonical string: none for other request types, otherwise credentials then fields |
| HashDigest.EncodeRequest | includes/class-paymentsense-base.php:311-316 | the appending loop builds exactly `MerchantID=…&Password=…` followed by `&Field=value` per field, in order |
| HashDigest.CredentialsFirst | includes/class-paymentsense-base.php:311-313 | every canonical string starts with `MerchantID=<id>&Password=<pw>` |
| HashDigest.DecodeEncode | includes/class-paymentsense-base.php:276-319 | splitting the canonical string at `&` and the first `=` recovers the pairs, so it is unambiguous when names have no `=` and values no `&` |
| HashDigest.FieldListsEncodable | includes/class-paymentsense-base.php:278-308 | all 22 notification names and both redirect names are plain identifiers |
| HashDigest.EncodingDeterminesValues | includes/class-paymentsense-base.php:311-316 | two requests with equal canonical strings post equal values for every listed field |
| HashDigest.CanonicalDeterminesFields | includes/class-paymentsense-base.php:276-319 | for request types '0' and '1', an equal variables string means equal values in every hashed field |
| HashDigest.CalculateHashDigest | includes/class-paymentsense-base.php:850-880 | MD5 and SHA1 hash `PreSharedKey=<key>&` + data; the HMAC methods key the HMAC with the pre-shared key; any other method gives '' |
| HashDigest.UnknownRequestTypeRejected | includes/class-paymentsense-base.php:889-898 | a request type other than '0' or '1' never verifies |
| HashDigest.DigestCheckMeaning | includes/class-paymentsense-base.php:889-898 | verification holds exactly when the posted HashDigest equals the computed digest ignoring case |
| HashDigest.UpperEqualsIgnoreCase | includes/class-paymentsense-base.php:895 | comparing `strtoupper` of both sides is case-insensitive equality |
| HashDigest.UnsupportedMethodAcceptsMissingDigest | includes/class-paymentsense-base.php:850-898 | with an unlisted hash method and no posted HashDigest, verification succeeds (''=='') |
| XmlExtract.ShortestFrom | includes/class-paymentsense-base.php:421-427 | the ungreedy match from a fixed opening tag ends at the first closing tag reached by in-class content, or there is none |
| XmlExtract.FirstMatch | includes/class-paymentsense-base.php:421-427 | the match found is leftmost, and shortest at that start; none means no position matches |
| XmlExtract.Capture | includes/class-paymentsense-base.php:421-427 | a captured value is non-empty and every character is in the content class |
| XmlExtract.GetXmlValue | includes/class-paymentsense-base.php:421-427 | the captured content, or `<element> Not Found` when nothing matches |
| XmlExtract.GetXmlCrossReference | includes/class-paymentsense-base.php:436-442 | the captured CrossReference attribute, or `No Data Found` |
| XmlExtract.DigitsValueNumericIffFound | includes/class-paymentsense-base.php:421-427 | a `[0-9]+` extraction is numeric exactly when the element was found, since the sentinel starts with a letter |
| XmlExtract.DigitsValueNumber | includes/class-paymentsense-base.php:421-427 | a found `[0-9]+` value is a digit string whose number is its decimal value |
| XmlExtract.ShortestOfElement | includes/class-paymentsense-base.php:421-427 | content without `<` followed by the closing tag is the shortest match |
| XmlExtract.ExtractRendered | includes/class-paymentsense-base.php:421-427 | a reply that opens with the element (in any letter case) yields exactly the element's content |
| FieldFilter.Substitute | includes/class-paymentsense-base.php:1690-1700 | each replacement character is itself supported, and supported characters are kept |
| FieldFilter.ReplaceUnsupportedIsMap | includes/class-paymentsense-base.php:1690-1700 | the seven chained `str_replace` calls act as one per-character map |
| FieldFilter.FilterRemovesUnsupported | includes/class-paymentsense-base.php:1690-1700 | the filtered text contains none of `" ' \ < > [ ]` |
| FieldFilter.FilterAmpersand | includes/class-paymentsense-base.php:1690-1725 | with the flag the output has no `&`; without it the decoded `&` characters survive in place |
| FieldFilter.HtmlDecodeWithoutAmpersand | includes/class-paymentsense-base.php:1708-1714 | decoding leaves text without `&` unchanged |
| FieldFilter.LengthRestricted | includes/class-paymentsense-base.php:1733-1755 | same length, and each entry keeps its key with the value restricted for that key |
| FieldFilter.ApplyLengthRestrictions | includes/class-paymentsense-base.php:1733-1755 | the foreach over the fields produces the length-restricted array |
| FieldFilter.LengthRestrictedMeaning | includes/class-paymentsense-base.php:1733-1755 | keys and order are kept; a listed key's value longer than its limit becomes exactly its first limit bytes, and one within its limit is kept whole; every other value passes through unchanged |
| FieldFilter.PostcodeNotLimited | includes/class-paymentsense-base.php:1733-1755 | 'PostCode' is limited to 50 but the direct key 'Postcode' has no limit |
| FieldFilter.FilterFields | includes/class-paymentsense-base.php:453-458 | keys are kept; a null value becomes '' and any other value is filtered |
| Transport.Send | includes/class-paymentsense-base.php:578-619 | when aborting: ABORTED_BY_CALLBACK with no timestamp pair; without cURL: FAILED_INIT with empty response; otherwise the oracle's exchange for this send |
| Transport.RefundsIffNotAborting | includes/class-paymentsense-base.php:206-212 | refunds are supported exactly when an unforced send would not be aborted, and a forced send never is |
| Transport.HostnameHttps | includes/class-paymentsense-base.php:1630-1633 | the hostname of a lower-case https URL without userinfo is the lower-cased text up to the first port, path, query or fragment delimiter |
| Transport.HostnameOf | includes/class-paymentsense-base.php:1630-1633 | an entry point `https://host:port` is keyed by its lower-cased host |
| Transport.RefundRetryDead | includes/class-paymentsense-base.php:777-783 | the refund loop stops on exactly the responses the probe stops on, because `should_retry_txn` is reached only for statuses other than '30'; a '30' never stops it |
| Transport.ErrorNeverStops | includes/class-paymentsense-base.php:773 | a send with a cURL error never ends a failover loop |
| Transport.ScheduleShape | includes/class-paymentsense-base.php:789-794 | the schedule is each entry point in list order, repeated `max_attempts` times |
| Transport.ProbeScheduleIsEntryPoints | includes/class-paymentsense-base.php:84-88 | with one attempt per endpoint the probe visits gw1, gw2, gw3 |
| Transport.TrailOver | includes/class-paymentsense-base.php:656-697 | the trail is no longer than its URL list, only its last attempt may stop, and it ends early only on a stopping attempt |
| Transport.TrailFollowsUrls | includes/class-paymentsense-base.php:656-697 | the trail is a prefix of sending the payload to each URL in turn |
| Transport.TrailMeaning | includes/class-paymentsense-base.php:656-697 | at most count × max sends and at least one; the i-th send goes to the i-th scheduled URL; nothing before the last attempt stops; an early end is a stop |
| Transport.AbortedTrailExhausts | includes/class-paymentsense-base.php:579-586 | with port 4430 disabled an unforced loop makes every scheduled attempt and all of them are aborted |
| Transport.PairsAfterKeepsOrder | includes/class-paymentsense-base.php:1550-1553 | recording timestamp pairs never reorders or drops a hostname already recorded |
| Shop.RemoveKeyLookup | includes/class-wc-paymentsense-hosted.php:744 | after `delete_post_meta` the key reads as absent and every other key is unchanged |
| Shop.MetaValueAfter | includes/class-wc-paymentsense-hosted.php:603-604 | a meta key reads the last value written to it, '' if it was last deleted, or its earlier value if never touched |
| Shop.StatusAfterSnoc | includes/class-wc-paymentsense-hosted.php:569-600 | the order status after one more event is that event's effect on the status before it |
| Shop.Order.constructor | includes/class-wc-paymentsense-hosted.php:518 | a loaded order has its id, payment method, status and meta, and no new events |
| Shop.Order.UpdateStatus | includes/class-wc-paymentsense-direct.php:279-282 | sets the status and appends a status-change event with the note; meta unchanged |
| Shop.Order.AddNote | includes/class-paymentsense-base.php:807-812 | appends a note event and leaves status and meta unchanged |
| Shop.Order.PaymentComplete | includes/class-wc-paymentsense-hosted.php:571 | moves the order to 'processing' and records the completion |
| Shop.Order.UpdateMeta | includes/class-wc-paymentsense-hosted.php:603-604 | writes the meta key in place and leaves status and events unchanged |
| Shop.Order.DeleteMeta | includes/class-wc-paymentsense-hosted.php:744 | removes the meta key and leaves status and events unchanged |
| Shop.Storefront.AddNotice | includes/class-wc-paymentsense-direct.php:244 | appends one notice and changes nothing else |
| Shop.Storefront.ClearNotices | includes/class-wc-paymentsense-hosted.php:684 | empties the notice list and changes nothing else |
| Shop.Storefront.SetSession | includes/class-wc-paymentsense-direct.php:411-420 | writes the session key and changes nothing else |
| Shop.Storefront.EmptyCart | includes/class-wc-paymentsense-direct.php:657 | marks the cart emptied and changes nothing else |
| Gateway.HpfData | includes/class-paymentsense-base.php:462-467 | the digest input is the canonical string of credentials followed by the filtered fields |
| Gateway.Gateway.constructor | includes/class-paymentsense-base.php:186-213 | the settings are stored, refunds are supported exactly when the port-4430 setting is not 'true', and the logs start empty |
| Gateway.Gateway.SendTransaction | includes/class-paymentsense-base.php:578-619 | the result is the transport's answer to this send, the send counter advances by one and a timestamp pair is recorded |
| Gateway.Gateway.Failover | includes/class-paymentsense-base.php:656-697 | the loop's attempts are exactly `Transport.Trail` over the schedule; one send per attempt; timestamp pairs recorded in send order |
| Gateway.Gateway.FailoverAttempt | includes/class-paymentsense-base.php:657-696 | one loop turn: send to the current endpoint, stop on a valid response, otherwise advance attempt and endpoint |
| Gateway.Gateway.PerformTestTransaction | includes/class-paymentsense-base.php:626-698 | forced probe over one attempt per endpoint: the result, the numbered attempt log, `connectivity_status` and `merchant_credentials_valid` all follow the trail |
| Gateway.Gateway.ProcessRefund | includes/class-paymentsense-base.php:710-813 | three attempts per endpoint with the stored CrossRef; a refund reply from the fold; a note is added only on success |
| Gateway.Gateway.BuildHpfFields | includes/class-paymentsense-base.php:450-482 | the direct method forces SHA1; the fields are HashDigest, MerchantID, then the filtered and length-limited payment fields |
| Gateway.Gateway.CheckGatewaySettings | includes/class-paymentsense-base.php:1432-1482 | one forced post to the payment form; the classification of its error span; the hosted-form log entry |
| Gateway.Gateway.GetConnectionStatusCode | includes/class-paymentsense-base.php:1198-1223 | probes first, then folds the logged error numbers into the status code |
| Gateway.Gateway.GetConnectionStatusMessage | includes/class-paymentsense-base.php:1230-1290 | probes, then always returns the connection message for the folded code together with the rendered log |
| Gateway.ProbeLogAppends | includes/class-paymentsense-base.php:683-688 | the induction behind ProbeLogFresh: on a log already numbered 1..n-1, the sends are appended as `Connection attempt n`, n+1, … in send order |
| Gateway.ProbeLogOverwrites | includes/class-paymentsense-base.php:649-688 | over any earlier log (a repeat probe restarts `$attempt_no` at 0): the j-th send reads back under `Connection attempt <n+j>`, overwriting an earlier entry of that number in its place; every other key, such as a higher number left by a longer earlier probe, keeps its value; earlier keys keep their positions |
| Gateway.ProbeLogFresh | includes/class-paymentsense-base.php:683-688 | a fresh probe logs one entry per send, numbered from 1, in send order |
| Gateway.StoppedProbeConnected | includes/class-paymentsense-base.php:690 | a probe that found a valid response leaves `connectivity_status` true |
| Gateway.ProbeStepAgreesWithScan | includes/class-paymentsense-base.php:664-680 | the credentials flag set during the probe agrees with the verdict that the settings page reads from the same log entry |
| Gateway.ProbeStatusCodeOk | includes/class-paymentsense-base.php:1198-1223 | after a successful probe the connection status code is CURLE_OK |
| Gateway.RefundSucceedsIff | includes/class-paymentsense-base.php:766-799 | the refund succeeds exactly when the loop stopped on a status-'0' reply |
| Gateway.RefundOutcome | includes/class-paymentsense-base.php:766-813 | the refund returns success exactly when the failover trail stopped with status '0' |
| Gateway.RefundFoldUndelivered | includes/class-paymentsense-base.php:773 | attempts with transport errors leave the refund state untouched |
| Gateway.RefundWhileAborting | includes/class-paymentsense-base.php:579-586 | with port 4430 disabled a refund makes 9 aborted sends and returns `refund_error` "Refund was declined. " |
| Gateway.RefundDescriptionReason | includes/class-paymentsense-base.php:712-714 | the description is `<prefix><order>: ` followed by the reason, or 'Refund' when the reason is empty |
| Gateway.HpfFieldsLayout | includes/class-paymentsense-base.php:450-482 | HashDigest over credentials plus fields comes first, MerchantID second, then the payment fields in order under their own keys |
| Diagnostics.SettingsText | includes/class-paymentsense-base.php:1394-1396 | a settings message renders as its text, and no message as nothing |
| Diagnostics.LogValue | includes/class-paymentsense-base.php:1230-1290 | the log rendered for display keeps each attempt's key in order |
| Diagnostics.Errnos | includes/class-paymentsense-base.php:1202-1204 | the fold reads each logged attempt's cURL error number, in order |
| Diagnostics.ConnectionStatusCode | includes/class-paymentsense-base.php:1198-1223 | the foreach over the attempt log computes the fold `StatusCodeOf`, whose behaviour the StatusCode lemmas below state |
| Diagnostics.StatusCodeRange | includes/class-paymentsense-base.php:1198-1223 | a status code, when there is one, is OK, ABORTED or a network failure taken from some attempt |
| Diagnostics.StatusCodeLastOk | includes/class-paymentsense-base.php:1205-1209 | a last attempt that is OK or ABORTED decides the status code |
| Diagnostics.StatusCodeSameFailure | includes/class-paymentsense-base.php:1210-1219 | repeating the same network failure keeps it as the status code |
| Diagnostics.StatusCodeMixedFailures | includes/class-paymentsense-base.php:1210-1219 | two different network failures with nothing else give no status code |
| Diagnostics.ConnectionStatusMessageMeaning | includes/class-paymentsense-base.php:1230-1290 | always a connection message: success exactly for OK, warning exactly for ABORTED, error for no code or a network failure |
| Diagnostics.ConvertIsJoin | includes/class-paymentsense-base.php:1072-1085 | `convert_array_to_string` is the entries' lines joined by end-of-line |
| Diagnostics.SystemTimeStatusMeaning | includes/class-paymentsense-base.php:1569-1613 | 'Unknown' exactly without a usable pair; 'OK' exactly within ±300 s; otherwise the message carries the exact signed difference; a message appears only when not OK and not Unknown |
| Diagnostics.SystemTimeFirstPairOnly | includes/class-paymentsense-base.php:1587-1596 | later sends never displace the first-recorded hostname that the difference is taken from |
| Diagnostics.HpfResultMeaning | includes/class-paymentsense-base.php:1452-1470 | OK exactly when delivered without an error span; hash-invalid exactly for the hash message; the MID checks in priority order |
| Diagnostics.MerchantIdFormatMeaning | includes/class-paymentsense-base.php:1529-1531 | the format holds exactly when the ID (less one trailing newline) is non-blank text with a dash that is neither first nor last |
| Diagnostics.DashedWordMeaning | includes/class-paymentsense-base.php:1529-1531 | `^\S+-\S+$` matches exactly non-blank text with an inner dash |
| Diagnostics.MerchantIdExamples | includes/class-paymentsense-base.php:1529-1531 | 'ABCDEF-1234567' passes, with or without a trailing newline; a dashless ID fails |
| Diagnostics.CredentialsVerdictMeaning | includes/class-wc-paymentsense-hosted.php:877-891 | a verdict comes from the first log entry that gives one, and no earlier entry gives one |
| Diagnostics.CredentialsNoVerdict | includes/class-wc-paymentsense-hosted.php:877-891 | no verdict means no log entry gives one |
| Diagnostics.ScanCredentials | includes/class-wc-paymentsense-hosted.php:877-891 | the foreach-and-break computes the first-verdict scan |
| Diagnostics.HostedSettingsTableMeaning | includes/class-wc-paymentsense-hosted.php:892-959 | success exactly for HPF OK; warning exactly for no response without known-invalid credentials; the MID message exactly for the MID results |
| Diagnostics.DirectSettingsTableMeaning | includes/class-wc-paymentsense-direct.php:724-812 | no message exactly for HPF OK; for hash-invalid or no response, an error exactly when credentials are known invalid, otherwise a warning |
| Diagnostics.TimeframeExpiryFinal | includes/class-paymentsense-base.php:1764-1777 | an expired payment window stays expired later, and can only expire when a timeout is set |
| Hosted.RequestType | includes/class-wc-paymentsense-hosted.php:484-486 | the request is a notification exactly when StatusCode is numeric, and otherwise a customer redirect |
| Hosted.TransactionStatus | includes/class-wc-paymentsense-hosted.php:544-567 | the table never yields 'duplicated' |
| Hosted.TransactionStatusDigits | includes/class-wc-paymentsense-hosted.php:544-567 | for digit codes: 0 success; 4, 5, 30 failed; 20 success only if PreviousStatusCode is exactly '0'; anything else unsupported |
| Hosted.StatusTableValues | includes/paymentsense-defines.php:21-26 | each status constant matches exactly the digit codes of its value |
| Hosted.TransactionStatusNonNumeric | includes/class-wc-paymentsense-hosted.php:544-567 | a non-numeric code is unsupported |
| Hosted.HostedGateway.constructor | includes/class-wc-paymentsense-hosted.php:71-82 | built over a hosted-kind base, it starts unauthenticated with an empty reply |
| Hosted.HostedGateway.SetSuccess | includes/class-wc-paymentsense-hosted.php:826-848 | the reply becomes code '0' with the success message |
| Hosted.HostedGateway.SetError | includes/class-wc-paymentsense-hosted.php:835-848 | the reply becomes code '30' with the given message |
| Hosted.HostedGateway.OutputResponse | includes/class-wc-paymentsense-hosted.php:853-857 | the output is `StatusCode=…&Message=…` and decodes back to the reply when neither part holds `&` |
| Hosted.HostedGateway.RecordOutcome | includes/class-wc-paymentsense-hosted.php:569-600 | the order events and final status for success (complete, plus on-hold if unauthenticated), failed and unsupported |
| Hosted.HostedGateway.ProcessServerNotification | includes/class-wc-paymentsense-hosted.php:508-616 | the order's events, status and meta and the echoed reply are those `ServerNotification` gives for the callback and the order's prior status |
| Hosted.HostedGateway.RecordNotification | includes/class-wc-paymentsense-hosted.php:518-604 | for a non-empty OrderID, the order effects and reply of the repeated or the fresh branch |
| Hosted.HostedGateway.RecordRepeatedNotification | includes/class-wc-paymentsense-hosted.php:520-534 | an order already processing gets a note, PaymentStatus 'duplicated' and reply code '0'; status unchanged |
| Hosted.HostedGateway.RecordNotificationOutcome | includes/class-wc-paymentsense-hosted.php:536-604 | stores CrossRef, PaymentStatus and the customer error; reply '30' only for unsupported |
| Hosted.HostedGateway.StorePaymentStatus | includes/class-wc-paymentsense-hosted.php:603-604 | writes PaymentStatus then CustomerErrorMsg and nothing else |
| Hosted.HostedGateway.ProcessServerCustomerRedirect | includes/class-wc-paymentsense-hosted.php:621-648 | the redirect and notices follow the stored payment status; the order is not changed |
| Hosted.HostedGateway.ProcessPostResponse | includes/class-wc-paymentsense-hosted.php:664-781 | the order's events, status and meta, the notices and the redirect are those `PostResponse` gives for the callback and the order's prior status; session and cart untouched |
| Hosted.HostedGateway.RecordPostResult | includes/class-wc-paymentsense-hosted.php:675-769 | the processing branch or the status branch of the POST handler |
| Hosted.HostedGateway.RecordRepeatedPost | includes/class-wc-paymentsense-hosted.php:677-691 | an order already processing gets a note, the notices are replaced by the already-paid error, and the customer goes to the payment page |
| Hosted.HostedGateway.RecordPostOutcome | includes/class-wc-paymentsense-hosted.php:694-769 | stores CrossRef; success deletes ErrMessage, other outcomes set it; always redirects to order-received |
| Hosted.HostedGateway.ProcessGatewayResponse | includes/class-wc-paymentsense-hosted.php:478-500 | POST verifies as a notification and the order ends in the status its events lead to; SERVER picks notification or redirect by numeric StatusCode, a notification moving the order to its events' status and a redirect leaving status, events and meta unchanged; any other setting outputs the unsupported-delivery page and changes nothing |
| Hosted.HostedGateway.HandlePostDelivery | includes/class-wc-paymentsense-hosted.php:479-482 | authenticates against the notification list, then handles the POST response: its output, events, meta, and the order status those events lead to |
| Hosted.HostedGateway.HandleServerDelivery | includes/class-wc-paymentsense-hosted.php:483-496 | authenticates against the list for the request type; a notification gives the echoed reply, events, meta and the status its events lead to; a redirect leaves the order's status, events and meta unchanged |
| Hosted.HostedGateway.HandleServerNotification | includes/class-wc-paymentsense-hosted.php:487-490 | authenticates against the notification list and processes the notification: reply, events, meta and the status its events lead to |
| Hosted.HostedGateway.HandleServerRedirect | includes/class-wc-paymentsense-hosted.php:487-494 | authenticates against the redirect list and redirects the customer |
| Hosted.HostedGateway.ReceiptPage | includes/class-wc-paymentsense-hosted.php:383-441 | unconfigured: a message only; window expired: a message only; otherwise the order goes pending and the hosted form is posted with the HPF fields; the hosted gateway's hash method is never changed |
| Hosted.HostedGateway.GetConnectionSettingsMessage | includes/class-wc-paymentsense-hosted.php:866-967 | an ill-formed merchant ID gives only the format error and changes no counter, log or timestamp; otherwise one settings check whose result and the credentials verdict select the table message, with its log entry and timestamp pair stored |
| Hosted.ReplyTextDecodes | includes/class-wc-paymentsense-hosted.php:853-857 | the reply text decodes back to its code and message |
| Hosted.OutcomeFinalStatus | includes/class-wc-paymentsense-hosted.php:569-600 | the final order status is the outcome status, and the payment is completed exactly on success, authenticated or not |
| Hosted.NotificationReplyMeaning | includes/class-wc-paymentsense-hosted.php:508-616 | reply code '0' exactly when OrderID is non-empty and the order was processing or the status is supported; otherwise '30' with the exception or unsupported message |
| Hosted.NotificationReplyDecodes | includes/class-wc-paymentsense-hosted.php:614 | every notification reply is a well-formed `StatusCode=…&Message=…` pair |
| Hosted.NotificationThenRedirect | includes/class-wc-paymentsense-hosted.php:603-646 | after a notification, the customer redirect goes to order-received exactly on success; otherwise to the payment page with the stored error |
| Hosted.RedirectAfterOutcomeWrites | includes/class-wc-paymentsense-hosted.php:632-646 | the redirect reads back the PaymentStatus and CustomerErrorMsg just written |
| Hosted.PostResponseThenReceivedText | includes/class-wc-paymentsense-hosted.php:744-796 | after a POST outcome the order-received text is kept exactly on success and blanked otherwise |
| Hosted.CustomerErrorNotEmpty | includes/class-wc-paymentsense-hosted.php:590-597 | every non-success outcome stores a non-empty customer error |
| Hosted.ZeroSettingUnconfigured | includes/class-wc-paymentsense-hosted.php:383-389 | configured needs all three settings non-empty in PHP's sense, so a password of '0' counts as missing and '00' does not |
| Direct.CheckFilled | includes/class-wc-paymentsense-direct.php:242-247 | one notice per empty required field, in order; true exactly when all are filled |
| Direct.DirectGateway.constructor | includes/class-wc-paymentsense-direct.php:56-72 | keeps a direct-kind base gateway and the connection's security |
| Direct.DirectGateway.ValidateFields | includes/class-wc-paymentsense-direct.php:232-253 | over an encrypted connection, valid exactly when every card field is filled, with one notice per empty field; otherwise invalid with the encryption notice |
| Direct.DirectGateway.ProcessPayment | includes/class-wc-paymentsense-direct.php:271-484 | the order goes pending, then the sale trail's verdict decides the order, meta, notices, session and result |
| Direct.DirectGateway.RunSale | includes/class-wc-paymentsense-direct.php:279-469 | the pending update, the sale failover loop and the recorded outcome |
| Direct.DirectGateway.RecordSale | includes/class-wc-paymentsense-direct.php:400-469 | stores CrossRef when decided; '3' writes the session challenge and leaves the order status alone; otherwise completes or fails the order |
| Direct.DirectGateway.Process3DSecureResponse | includes/class-wc-paymentsense-direct.php:527-714 | ACS answer: relay only; order already processing: already-paid notice only; otherwise one 3-D Secure loop whose verdict decides the order's events and status, meta, notices and cart |
| Direct.DirectGateway.RecordAuthentication | includes/class-wc-paymentsense-direct.php:625-714 | the 3-D Secure trail's handling is applied to the order (events, the status they lead to, meta) and the storefront |
| Direct.DirectGateway.AuthenticationSucceeded | includes/class-wc-paymentsense-direct.php:647-658 | stores AuthCode and CrossRef, completes the order with a note so that it is 'processing', and empties the cart |
| Direct.DirectGateway.AuthenticationFailed | includes/class-wc-paymentsense-direct.php:660-689 | the order's status becomes 'failed' with the note and the notice is added; meta and cart unchanged |
| Direct.DirectGateway.GetConnectionSettingsMessage | includes/class-wc-paymentsense-direct.php:724-812 | format error, or confirmed credentials giving success, without a send and with counters, log, timestamps and hash method unchanged; otherwise SHA1 is forced, one settings check is made, its log entry and timestamp pair are stored, and the direct table gives the message |
| Direct.EmptyFieldNoticesMeaning | includes/class-wc-paymentsense-direct.php:242-247 | no notices exactly when all fields are filled; each notice is an error naming an empty field |
| Direct.PaymentFieldsMeaning | includes/class-wc-paymentsense-direct.php:190-223 | the card form shows exactly when valid for use; without encryption the notice asks for SSL |
| Direct.SaleDecidedByLast | includes/class-wc-paymentsense-direct.php:385-453 | only the stopping attempt decides the sale status and CrossRef; a loop that never stops leaves the start state |
| Direct.SaleOutcome | includes/class-wc-paymentsense-direct.php:385-469 | result 'success' exactly when the loop stopped on a non-failed verdict; CrossRef stored exactly when it stopped; the result is 'success' or 'fail' |
| Direct.SaleFoldOutcome | includes/class-wc-paymentsense-direct.php:385-469 | the same for any trail whose only stop is last |
| Direct.SaleHandledResult | includes/class-wc-paymentsense-direct.php:455-469 | the result is 'success' exactly unless the sale failed |
| Direct.SaleEventsStatus | includes/class-wc-paymentsense-direct.php:279-469 | the final order status matches the sale status, and the payment completes exactly on success |
| Direct.SaleVerdictDigits | includes/class-wc-paymentsense-direct.php:403-439 | 0 succeeds; 20 succeeds only with a previous result of exactly '0'; 3 is incomplete; any other code fails with its message |
| Direct.SaleWhileAborting | includes/class-wc-paymentsense-direct.php:272-275 | with port 4430 disabled the sale makes 9 aborted sends and fails with the initial 'fail' result |
| Direct.SaleFoldUndelivered | includes/class-wc-paymentsense-direct.php:392 | attempts with transport errors leave the sale state untouched |
| Direct.ChallengeReachesAcs | includes/class-wc-paymentsense-direct.php:492-525 | the session written on status '3' produces the ACS form with TermUrl, MD = CrossRef and PaReq |
| Direct.RelayThenAuthenticate | includes/class-wc-paymentsense-direct.php:543-596 | the relayed return form is not itself an ACS answer, and its payload carries credentials, MD as CrossReference and PaRes |
| Direct.SecureSucceedsIff | includes/class-wc-paymentsense-direct.php:625-714 | the order completes, the cart empties and the customer reaches order-received exactly on a status-'0' stop; otherwise the order fails with one notice and order-pay |
| Plugin.GetIncompatiblePlugins | paymentsense-gateway-for-woocommerce.php:76-96 | the foreach result is the quoted names of matching plugins joined by ", " in active order |
| Plugin.CheckCompatibility | paymentsense-gateway-for-woocommerce.php:42-68 | deactivates exactly when some active plugin is incompatible, with the message naming them |
| Plugin.AddGateways | paymentsense-gateway-for-woocommerce.php:147-151 | appends Hosted then Direct and keeps the given list |
| Plugin.JoinEmptyIff | paymentsense-gateway-for-woocommerce.php:88-92 | the joined list is empty exactly when there are no matches |
| Plugin.MatchesEmptyIff | paymentsense-gateway-for-woocommerce.php:83-94 | no matches exactly when no active plugin's slug is in the table |
| Plugin.MatchesSnoc | paymentsense-gateway-for-woocommerce.php:83-94 | each active plugin adds its quoted name, when listed, at the end |
| Plugin.SlugOf | paymentsense-gateway-for-woocommerce.php:84-85 | the slug is the path segment before the first '/' |
| Plugin.ListedPluginReported | paymentsense-gateway-for-woocommerce.php:76-96 | an active Sequential Order Numbers plugin is reported by name |
| Plugin.SequentialOrderNumbersListed | paymentsense-gateway-for-woocommerce.php:77-79 | the table lists exactly one plugin |

## Left out

- cURL transmission in `send_transaction` is not modelled: network I/O, timeouts and TLS options. The exchange is an oracle indexed by the send count.
- md5, sha1 and hash_hmac are opaque function values in `HashDigest.Digests`. Nothing is said about their outputs.
- `retrieve_date`, DateTime, `date()` and `rand()` are left out: clock, parsing and randomness. Timestamps enter as integers, and the sample HPF fields enter as an input.
- The `* 100` float arithmetic on order totals and refund amounts is left out. Minor-unit amounts enter as strings.
- Loose `==` between numeric strings is compared by exact decimal value. PHP's float rounding for very long numbers is not modelled.
- The plugin info, checksum and version endpoints, `output_info`, header output and json_encode are left out: I/O and framework calls.
- The HTML scraping in `get_hpf_error_message` is left out. The extracted error span is a function input.
- `init_form_fields`, `get_warning_message`, and the templates are left out. The redirect, ACS and return forms are kept only as a URL and a field list.
- The SOAP XML envelope of each request is not rendered. The payload is the ordered field list it would carry.
- WC_Order exceptions thrown by the framework are left out, and so are the `catch` pages of the POST and redirect handlers. Only the plugin's own empty-OrderID exception in the server notification is modelled.
- `exit`, `wp_die` and `wp_safe_redirect` are left out. They appear as returned `Response` values.
- Hosted.HostedGateway.ProcessGatewayResponse: the POST and SERVER ensures state the order's events, status and meta, but not the storefront notices. Those are stated on the POST and redirect handlers it calls.
- Shop.Order.PaymentComplete: WooCommerce's `payment_complete()` is taken as always moving the order to 'processing'. The framework's 'completed' target for orders that need no processing, and its no-op on statuses that are not payable, are not modelled. So the plugin's duplicate test against 'processing' is never shown missing a 'completed' order.
- HashDigest.PostData: form values are read uncleaned. The `wc_clean` step of `wc_get_post_data_by_key` (unslash, trim, collapse whitespace, strip tags and percent-encoded octets) is not modelled. This reaches every caller: the card-field checks in `Direct.CheckFilled` and `ValidateFields` (so a blank such as ' ' counts as filled), the card fields in `SalePayload`, `AcsAnswer` and `SecurePayload`, and the hosted `PreviousStatusCode` in `CallbackOf` (so ' 0' is not the exact '0'). The hashed notification fields are read raw through `get_http_var`, as in the source.
- Gateway.Gateway.ProcessRefund: the `if ( $order->get_id() )` guard before the success note is not modelled. The order handed in always exists, so the note is always added.
- Transport.Hostname: `wp_parse_url` also strips userinfo (`user:pass@`) and accepts an upper-case scheme. The model only reads the gateway's own lower-case https URLs without userinfo.
- Direct.DirectGateway.ProcessPayment: the `catch (Exception)` branch is not modelled, because nothing inside the modelled code throws.
- Gateway.Gateway.CheckGatewaySettings: the sample order fields are an input rather than built from `date()` and `rand()`.
