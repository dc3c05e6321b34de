# joynr messaging core, modelled in Dafny

This project models the rule-based core of the joynr middleware runtime and proves what its
components promise. It has one module per source file:

- `MessageRouting` (`message_router.dfy`) models the Java message router.
  - The router holds a routing table from participant ids to next-hop addresses. `addNextHop`, `removeNextHop`, `resolveNextHop` and `getAddress` work on that table.
  - `route` refuses an expired message. Otherwise it submits a dispatch task to the scheduler.
  - The dispatch task re-checks expiry and resolves the next hop. It then makes exactly one transmit call: with the message itself for an in-process address, with its serialized form for any other address.
  - The failure action drops the message on a shutdown error. Otherwise it resubmits the message with `retriesCount + 1`, using either the delay carried by a delay error or the retry interval plus the jittered backoff. When the scheduler rejects the resubmission, it sleeps and tries again.
  - The scheduler is a FIFO queue of submitted tasks (`scheduled`). The transport stubs are a log of transmit calls (`transmissions`).
- `RoutingTypes` (`routing_types.dfy`) holds the address variants and the routing table. `StaticCapabilitiesProvisioning` uses them too.
- `Util` (`util.dfy`) models the C++ string helpers: `splitIntoJsonObjects`, `attributeGetterFromName`, `removeNamespace` and `throwJoynrException`.
  - `splitIntoJsonObjects` is specified by two functions over prefixes of the stream. `Lex` gives the brace depth and the in-string flag. `Extract` gives the open object's start and the finished spans.
  - The scanning loop is proved to compute exactly those spans.
  - The spans are proved to be exactly the stream's top-level objects.
- `QosArbitration` (`qos_arbitrator.dfy`) models the C++ QoS arbitrator. It picks the first eligible discovery entry of strictly highest priority above -1, then records the arbitration result.
- `Provisioning` (`static_provisioning.dfy`) models static capability provisioning, in this order:
  1. Load the discovery entries parsed from JSON, marking each as last seen now and replacing a local address by the in-process address.
  2. Apply the legacy overrides for the capabilities directory and the domain access controller.
  3. Enter every global entry into the routing table.
- `Rpc` (`request_status.dfy`) models the Java `RequestStatus`: a status code and a list of descriptions.
- `ProxyAttributes` (`proxy_attribute.dfy`) models a JavaScript proxy attribute:
  - the capability string decides which of `get`, `set`, `subscribe` and `unsubscribe` exist;
  - `get` and `set` build their requests;
  - `set` refuses a value that fails the argument check;
  - the messaging QoS a request is sent with is merged so that the request's settings win over the attribute's, the attribute's over the parent proxy's, and the parent's over the defaults.
- `Common` (`common.dfy`) defines `Option` and `Result`.

Values from outside the core are parameters of the operations that use them:

| outside value | parameter |
|---|---|
| current time | `now` |
| `Math.random()` draw | a real in [0, 1) |
| scheduler accepts or rejects a submission | `accepted` |
| result of JSON parsing | a `ParsedJson`: unparsable, a null list, or the entries |
| discovery lookup result | the status and entry list passed to `AttemptArbitration` |
| message serializer | a function-valued field |
| `selectPreferredCommunicationMiddleware` | a function-valued field |
| type registry | a map |

Three behaviours of the code are easy to misread, and the model keeps them as written:

- The backoff is `delayMs + (long)((2 ^ retries) * delayMs * random)`. In Java `^` is exclusive or, so the jitter factor is `retries` with bit 1 flipped. It grows linearly, not exponentially. For `retries == 2` there is no jitter at all (`NoJitterAtRetryTwo`). From the third retry on, the factor stays below `2^retries` (`JitterFactorBelowPowerOfTwo`).
- `routeInternal` always submits with delay 0. The retry delay the failure action computes is therefore never applied to the resubmitted task. It is used only for the back-pressure sleep after a rejected submission.
- `shutdown` only refuses later submissions. Tasks already submitted stay queued.

## Model

| member | source | states |
|---|---|---|
| MessageRouting.CheckExpiry | java/messaging/messaging-common/src/main/java/io/joynr/messaging/routing/MessageRouterImpl.java:202-213 | no error exactly when `now < expiryDate`; otherwise a not-sent error carrying `now` and the expiry date |
| MessageRouting.XorTwo | java/messaging/messaging-common/src/main/java/io/joynr/messaging/routing/MessageRouterImpl.java:279 | `2 ^ r` (XOR) is `r + 2` or `r - 2`, and is non-negative for non-negative `r` |
| MessageRouting.TruncateTowardZero | java/messaging/messaging-common/src/main/java/io/joynr/messaging/routing/MessageRouterImpl.java:279 | the `(long)` cast keeps the sign and drops less than 1 in magnitude |
| MessageRouting.JitterBounds | java/messaging/messaging-common/src/main/java/io/joynr/messaging/routing/MessageRouterImpl.java:279 | the truncated jitter `(long)(p * random)` lies between 0 and `p`, strictly below a positive `p` |
| MessageRouting.PositiveJitter | java/messaging/messaging-common/src/main/java/io/joynr/messaging/routing/MessageRouterImpl.java:279 | for a positive range `p` the truncated jitter lies in [0, p) |
| MessageRouting.NegativeJitter | java/messaging/messaging-common/src/main/java/io/joynr/messaging/routing/MessageRouterImpl.java:279 | for a negative range `p` the truncated jitter lies in [p, 0] |
| MessageRouting.ExponentialBackoff | java/messaging/messaging-common/src/main/java/io/joynr/messaging/routing/MessageRouterImpl.java:277-282 | the result lies between `delayMs` and `delayMs + (2 XOR retries) * delayMs`, strictly below the upper end when the jitter range is non-empty |
| MessageRouting.NoJitterAtRetryTwo | java/messaging/messaging-common/src/main/java/io/joynr/messaging/routing/MessageRouterImpl.java:279 | for retry count 2 the backoff equals `delayMs` exactly |
| MessageRouting.JitterFactorBelowPowerOfTwo | java/messaging/messaging-common/src/main/java/io/joynr/messaging/routing/MessageRouterImpl.java:279 | from the third retry on, the XOR factor is at most `r + 2` and below `2^r` |
| MessageRouting.RetryDelay | java/messaging/messaging-common/src/main/java/io/joynr/messaging/routing/MessageRouterImpl.java:228-234 | a delay error yields exactly its own delay; any other error yields between `2 * interval` and `2 * interval + (2 XOR retries) * interval` |
| MessageRouting.RoundDelay | java/messaging/messaging-common/src/main/java/io/joynr/messaging/routing/MessageRouterImpl.java:243-249 | a re-execution after a full send buffer always waits at least twice the retry interval |
| MessageRouting.MessageRouterImpl.constructor | java/messaging/messaging-common/src/main/java/io/joynr/messaging/routing/MessageRouterImpl.java:75-85 | keeps the table, interval and serializer; nothing scheduled or transmitted; not shut down |
| MessageRouting.MessageRouterImpl.ResolveNextHop | java/messaging/messaging-common/src/main/java/io/joynr/messaging/routing/MessageRouterImpl.java:127-132 | true exactly when the routing table has an entry for the participant |
| MessageRouting.MessageRouterImpl.GetAddress | java/messaging/messaging-common/src/main/java/io/joynr/messaging/routing/MessageRouterImpl.java:139-146 | None exactly when the recipient is missing or has no route; otherwise the table's address for it |
| MessageRouting.MessageRouterImpl.AddNextHop | java/messaging/messaging-common/src/main/java/io/joynr/messaging/routing/MessageRouterImpl.java:87-117 | afterwards the participant resolves to the new address (last writer wins); every other participant's route is unchanged |
| MessageRouting.MessageRouterImpl.RemoveNextHop | java/messaging/messaging-common/src/main/java/io/joynr/messaging/routing/MessageRouterImpl.java:119-125 | afterwards the participant has no route (also when repeated); every other participant's route is unchanged |
| MessageRouting.MessageRouterImpl.RouteInternal | java/messaging/messaging-common/src/main/java/io/joynr/messaging/routing/MessageRouterImpl.java:154-200 | shutdown error once shut down; send-buffer-full error on rejection; otherwise exactly one task appended, with delay 0 whatever delay was asked for |
| MessageRouting.MessageRouterImpl.Route | java/messaging/messaging-common/src/main/java/io/joynr/messaging/routing/MessageRouterImpl.java:148-152 | an expired message is refused and nothing is scheduled; otherwise it behaves as routeInternal with delay 0 and retry count 0 |
| MessageRouting.MessageRouterImpl.RunNextTask | java/messaging/messaging-common/src/main/java/io/joynr/messaging/routing/MessageRouterImpl.java:160-192 | takes the oldest task; re-checks expiry; a missing route is an error with no transmit; otherwise exactly one transmit, unserialized for in-process and serialized for any other address |
| MessageRouting.MessageRouterImpl.OnTransmitFailure | java/messaging/messaging-common/src/main/java/io/joynr/messaging/routing/MessageRouterImpl.java:215-257 | dropped exactly for a shutdown error; a reschedule appends one task with `retriesCount + 1` after sleeping the round delay of every rejected round; a shutdown during resubmission escapes; a negative delay after a rejected round makes `Thread.sleep` raise, which ends the action with nothing resubmitted |
| MessageRouting.MessageRouterImpl.Shutdown | java/messaging/messaging-common/src/main/java/io/joynr/messaging/routing/MessageRouterImpl.java:259-267 | afterwards the scheduler refuses submissions |
| Util.DepthStep | cpp/common/Util.cpp:45-53 | the brace counter moves by at most one per character, up only at a `{` and down only at a `}` outside a string |
| Util.BracesInStringIgnored | cpp/common/Util.cpp:49-52 | braces inside a string change neither the counter nor the flag |
| Util.QuoteToggleRule | cpp/common/Util.cpp:46-48 | a `"` toggles the in-string flag unless it is at index 0 or follows a backslash |
| Util.QuotedBracesKeepDepthZero | cpp/common/Util.cpp:45-60 | when every brace of a prefix lies inside a string, the counter stays 0 and no object is opened or emitted |
| Util.OpenObjectInvariant | cpp/common/Util.cpp:45-58 | after every prefix, an open object starts at a `{` where the counter went from 0 to 1 and has stayed at least 1; with no object open the counter is at most 0 |
| Util.OpenStartBefore | cpp/common/Util.cpp:55-63 | the start of the open object is -1 or an index already read |
| Util.FinishedSpansWellFormed | cpp/common/Util.cpp:59-64 | after every prefix the objects found are ordered, disjoint, each from a `{` to a `}`, and end before the open object |
| Util.SpansGrow | cpp/common/Util.cpp:59-63 | objects are only ever appended |
| Util.SpansAreTopLevelObjects | cpp/common/Util.cpp:45-65 | every emitted span is a top-level object |
| Util.OpenObjectStart | cpp/common/Util.cpp:55-58 | an open object starts where the counter last went from 0 to 1 |
| Util.TopLevelObjectsAreSpans | cpp/common/Util.cpp:45-65 | every top-level object is emitted |
| Util.ObjectSpansCharacterization | cpp/common/Util.cpp:45-66 | the emitted spans are exactly the top-level objects, each from a `{` to a `}`, in input order, without overlap |
| Util.UnclosedObjectNotEmitted | cpp/common/Util.cpp:59-66 | an object still open at the end is not emitted |
| Util.NoOpeningBraceNoObjects | cpp/common/Util.cpp:45-66 | a stream with no `{` outside a string yields no object |
| Util.SplitIntoJsonObjects | cpp/common/Util.cpp:35-67 | the returned objects are exactly `Slices` of the specified spans, in order; each span runs from a `{` to a `}` and they do not overlap |
| Util.ToUpper | cpp/common/Util.cpp:72 | `std::toupper` maps `a`-`z` to `A`-`Z` and leaves every other character alone |
| Util.AttributeGetterFromName | cpp/common/Util.cpp:69-75 | `"get"` followed by the name with its first character upper-cased and the rest unchanged |
| Util.IndexOfDoubleColon | cpp/common/Util.cpp:108 | the first `"::"` at or after the start position, or None when there is none |
| Util.RemoveNamespace | cpp/common/Util.cpp:104-110 | the name unchanged when it has no `"::"`; otherwise the part after the first `"::"` |
| Util.RemoveNamespaceOfQualifiedName | cpp/common/Util.cpp:104-110 | `ns::rest` with a colon-free `ns` becomes `rest` |
| Util.ThrowJoynrException | cpp/common/Util.cpp:112-141 | each of the seven type names gives its own kind with the original message; any other name gives a runtime exception "Unknown exception: type: message" |
| Util.ThrowPreservesKind | cpp/common/Util.cpp:112-135 | rethrowing an error of a known kind yields that kind |
| QosArbitration.PreferredIsUnique | cpp/libjoynr/proxy/QosArbitrator.cpp:94-99 | at most one entry is preferred: ties go to the earliest, because the comparison is strict |
| QosArbitration.PreferredExists | cpp/libjoynr/proxy/QosArbitrator.cpp:85-99 | a preferred entry exists exactly when some eligible entry has a priority above -1 |
| QosArbitration.Selection | cpp/libjoynr/proxy/QosArbitrator.cpp:85-100 | the preferred entry's index, or -1 exactly when there is none |
| QosArbitration.QosArbitrator.constructor | cpp/libjoynr/proxy/QosArbitrator.cpp:36-45 | keeps domain and interface as passed to the `ProviderArbitrator` base, and the on-change requirement; the initial running state with no participant is the base class's, taken as an assumption |
| QosArbitration.QosArbitrator.ReceiveCapabilitiesLookupResults | cpp/libjoynr/proxy/QosArbitrator.cpp:76-107 | with a preferred entry that has a participant id, the status becomes successful with that id and the middleware selected for that entry; otherwise nothing changes (an empty list included) |
| QosArbitration.QosArbitrator.AttemptArbitration | cpp/libjoynr/proxy/QosArbitrator.cpp:48-72 | lookup results are passed on only when the lookup status is successful; otherwise nothing changes |
| Rpc.RequestStatus.WithDescription | java/javaapi/src/main/java/io/joynr/dispatcher/rpc/RequestStatus.java:30-35 | the given code and exactly `[description]` |
| Rpc.RequestStatus.constructor | java/javaapi/src/main/java/io/joynr/dispatcher/rpc/RequestStatus.java:37-41 | the given code and no descriptions |
| Rpc.RequestStatus.SetCode | java/javaapi/src/main/java/io/joynr/dispatcher/rpc/RequestStatus.java:47-49 | changes only the code |
| Rpc.RequestStatus.SetDescriptionList | java/javaapi/src/main/java/io/joynr/dispatcher/rpc/RequestStatus.java:55-57 | replaces the whole list; the code is unchanged |
| Rpc.RequestStatus.AddDescription | java/javaapi/src/main/java/io/joynr/dispatcher/rpc/RequestStatus.java:59-61 | appends at the end; earlier descriptions and the code are unchanged |
| Rpc.RequestStatus.Successful | java/javaapi/src/main/java/io/joynr/dispatcher/rpc/RequestStatus.java:63-65 | true exactly when the code is OK; the constructors and `SetCode` make it follow the given code, and description changes leave it as it was (stated on those members) |
| Provisioning.SubstituteInProcessAddressIfLocal | java/common/discovery-common/src/main/java/io/joynr/capabilities/StaticCapabilitiesProvisioning.java:143-152 | the result is never a local address (a channel address with the local channel id, or an MQTT address with it as topic); it differs from the input exactly when the input was local, and then it is the in-process address |
| Provisioning.ProvisionedAddresses | java/common/discovery-common/src/main/java/io/joynr/capabilities/StaticCapabilitiesProvisioning.java:130-134 | no loaded entry has a local address; each parsed entry is loaded with its address kept when not local and made in-process when local |
| Provisioning.Provisioned | java/common/discovery-common/src/main/java/io/joynr/capabilities/StaticCapabilitiesProvisioning.java:130-133 | a loaded entry is last seen now, keeps its domain, interface, participant id and other fields, and has its address substituted |
| Provisioning.OverrideKeepsDuplicateEntry | java/common/discovery-common/src/main/java/io/joynr/capabilities/StaticCapabilitiesProvisioning.java:93-118 | two entries for one interface and participant differing only in their other fields are both in the set; an override removes one, so both that participant and the legacy entry's participant stay among the global ids |
| Provisioning.LegacyOverrides | java/common/discovery-common/src/main/java/io/joynr/capabilities/StaticCapabilitiesProvisioning.java:93-104 | after both overrides the legacy entries are present, only global entries for the two infrastructure interfaces are lost, at most the one chosen for each, and with both legacy entries null the set is unchanged |
| Provisioning.OverrideReplacesAtMostOne | java/common/discovery-common/src/main/java/io/joynr/capabilities/StaticCapabilitiesProvisioning.java:93-118 | a null legacy entry leaves the set unchanged; otherwise at most one entry is removed, only a global entry for the interface, and the legacy entry is present afterwards |
| Provisioning.StaticCapabilitiesProvisioning.Empty | java/common/discovery-common/src/main/java/io/joynr/capabilities/StaticCapabilitiesProvisioning.java:71 | the entry set starts empty |
| Provisioning.StaticCapabilitiesProvisioning.AddEntriesFromJson | java/common/discovery-common/src/main/java/io/joynr/capabilities/StaticCapabilitiesProvisioning.java:120-141 | unparseable JSON is an error naming the JSON text, a null list is the uncaught null-pointer error, and neither adds anything; otherwise every parsed entry is added as loaded |
| Provisioning.StaticCapabilitiesProvisioning.RemoveExistingEntryForInterface | java/common/discovery-common/src/main/java/io/joynr/capabilities/StaticCapabilitiesProvisioning.java:106-118 | removes one global entry for the interface if there is one, and nothing otherwise |
| Provisioning.StaticCapabilitiesProvisioning.OverrideEntriesFromLegacySettings | java/common/discovery-common/src/main/java/io/joynr/capabilities/StaticCapabilitiesProvisioning.java:93-104 | the capabilities-directory override, then the domain-access-controller override, each replacing one matching global entry when non-null |
| Provisioning.StaticCapabilitiesProvisioning.AddAddressesToRoutingTable | java/common/discovery-common/src/main/java/io/joynr/capabilities/StaticCapabilitiesProvisioning.java:83-91 | the table gains exactly the global entries' participant ids, each routed to the address of a global entry with that id; other routes and non-global entries change nothing |
| Provisioning.Provision | java/common/discovery-common/src/main/java/io/joynr/capabilities/StaticCapabilitiesProvisioning.java:64-81 | invalid JSON or a null list fails before the routing table is touched; otherwise the final set is the loaded set after the two overrides, each removing one global entry for its interface chosen in set order; with no legacy entries it is exactly the loaded set; the legacy entries are present, the table routes every final global entry, and every other route keeps its old address |
| ProxyAttributes.MatchesIffOccurs | javascript/libjoynr-js/src/main/js/joynr/proxy/ProxyAttribute.js:237-245 | `caps.match(/KEYWORD/)` succeeds exactly when the keyword occurs somewhere in the string |
| ProxyAttributes.OperationsForKeywords | javascript/libjoynr-js/src/main/js/joynr/proxy/ProxyAttribute.js:237-245 | get exists iff "READ" occurs, set iff "WRITE" occurs, subscribe and unsubscribe iff "NOTIFY" occurs |
| ProxyAttributes.NotifyReadWriteCapabilities | javascript/libjoynr-js/src/main/js/joynr/proxy/ProxyAttribute.js:218-245 | "NOTIFYREADWRITE" installs all four operations |
| ProxyAttributes.ReadWriteCapabilities | javascript/libjoynr-js/src/main/js/joynr/proxy/ProxyAttribute.js:218-245 | "READWRITE" installs get and set only |
| ProxyAttributes.ReadOnlyCapabilities | javascript/libjoynr-js/src/main/js/joynr/proxy/ProxyAttribute.js:218-245 | "READONLY" installs get only |
| ProxyAttributes.WriteOnlyCapabilities | javascript/libjoynr-js/src/main/js/joynr/proxy/ProxyAttribute.js:218-245 | "WRITEONLY" installs set only |
| ProxyAttributes.NotifyOnlyCapabilities | javascript/libjoynr-js/src/main/js/joynr/proxy/ProxyAttribute.js:218-245 | "NOTIFY" installs subscribe and unsubscribe only |
| ProxyAttributes.CheckArgument | javascript/libjoynr-js/src/main/js/joynr/proxy/ProxyAttribute.js:28-40 | an error exactly when the value is an object of a registered type whose checkMembers reports one; null and undefined always pass |
| ProxyAttributes.MergedQosPrecedence | javascript/libjoynr-js/src/main/js/joynr/proxy/ProxyAttribute.js:268-275 | every property comes from the right-most of request, attribute, parent and defaults that defines it |
| ProxyAttributes.FirstUpper | javascript/libjoynr-js/src/main/js/joynr/proxy/ProxyAttribute.js:61 | same length; first character upper-cased, the rest unchanged |
| ProxyAttributes.ProxyAttribute.constructor | javascript/libjoynr-js/src/main/js/joynr/proxy/ProxyAttribute.js:223-246 | keeps parent, settings, name and type; installs each operation exactly when its keyword occurs in the capability string |
| ProxyAttributes.ProxyAttribute.ExecuteRequest | javascript/libjoynr-js/src/main/js/joynr/proxy/ProxyAttribute.js:267-289 | the request goes to the provider's discovery entry from the proxy; its QoS has every property defined anywhere, with request settings over attribute settings |
| ProxyAttributes.ProxyAttribute.Get | javascript/libjoynr-js/src/main/js/joynr/proxy/ProxyAttribute.js:56-64 | method name `"get"` + the capitalised attribute name, no parameters, sent through executeRequest |
| ProxyAttributes.ProxyAttribute.Set | javascript/libjoynr-js/src/main/js/joynr/proxy/ProxyAttribute.js:86-103 | rejected, with no request, exactly when the argument check fails; otherwise method name `"set"` + the capitalised name with the attribute type and the value as its one parameter |
| ProxyAttributes.SetNullIsNeverRejected | javascript/libjoynr-js/src/main/js/joynr/proxy/ProxyAttribute.js:86-96 | setting null or undefined, or calling set without settings, always sends a request |

## Left out

- Concurrency of the scheduler thread pool is not modelled. Tasks run one at a time, oldest first, when `RunNextTask` is called. `awaitTermination` and its 5000 ms timeout are left out.
- An exception thrown inside a scheduled task is returned as an error value. In Java the executor captures it.
- Logging is left out: the `logger` calls, `DateFormatter`, and the log-only `message.getId().substring(UUID_TAIL)`. That call would throw for a message id shorter than 32 characters, and the model does not capture this.
- `getProviderQos` is not part of this model. It only sets the provider scope to LOCAL.
- `MessagingStubFactory.create` and `MessageSerializerFactory` are replaced by the `serialize` function of the router. The routing table implementation is replaced by a `map` field.
- `Thread.sleep` is modelled only as the recorded sleep durations and the `IllegalArgumentException` it raises for a negative duration. `InterruptedException` is modelled as running out of `attempts`.
- MessageRouting.ExponentialBackoff: does not model Java `int`/`long` overflow or double rounding. The product `(2 ^ retries) * delayMs * random` is exact real arithmetic.
- MessageRouting.MessageRouterImpl.OnTransmitFailure: does not model the overflow of `retriesCount + 1` past the `int` range.
- Util.SplitIntoJsonObjects works on `seq<char>` rather than the bytes of a `QByteArray`, and uses unbounded integers for the counter.
- `Util::createUuid` and `Util::logSerializedMessage` are left out: one is random, the other is logging only.
- Util.ThrowJoynrException: does not model the `std::bad_cast` that `dynamic_cast` raises when an error's dynamic type does not match its type name.
- The `TYPE_NAME` strings of the exception classes come from headers that are not part of this model. The strings used follow the classes' qualified names.
- Util.ToUpper covers the "C" locale only.
- QosArbitration: the discovery lookup is left out. Its status and result are parameters of `AttemptArbitration`.
- QosArbitration.QosArbitrator.constructor: the `keyword` member, read from the discovery QoS custom parameter "keyword", is left out, because nothing in the arbitration reads it. The discovery proxy and the discovery QoS passed to the base class are left out too.
- QosArbitration.QosArbitrator.constructor: the base class `ProviderArbitrator` is not part of this model. Its initial state (arbitration running, empty participant id, no middleware) is taken as an assumption.
- The C++ `RequestStatus` that the lookup returns is modelled by the `Rpc.RequestStatus` class, which has the same code and `successful` test.
- The log message of a failed lookup is left out.
- `selectPreferredCommunicationMiddleware` is a function-valued field.
- Priorities are unbounded integers rather than `qint64`.
- Provisioning: reading the JSON file (`ResourceContentProvider`) and Jackson parsing are abstracted to the parse result. An entry's address is kept structured, not as its serialized JSON string.
- Provisioning.StaticCapabilitiesProvisioning.AddEntriesFromJson: a JSON list holding a `null` element is not modelled. Java raises a `NullPointerException` on that element after adding the earlier ones; the parsed list here holds entries only.
- The fields of an entry that provisioning does not read (provider version, provider QoS, expiry date, public key id) are carried unread in `EntryDetails`, so they take part in entry equality as in Java. The QoS custom parameters are a sequence of pairs rather than a Java array.
- The `JsonProcessingException` that serializing the in-process address might raise is not modelled.
- Provisioning: `System.currentTimeMillis()` is a single `now` for all entries.
- HashSet iteration order is unknown, so the global entry removed for an interface is any matching entry. For two global entries with the same participant id, the route may come from either entry.
- Entries are values: Java mutates each entry before inserting it, so identity is never observed.
- The legacy provisioning lookup is replaced by its two results, passed as parameters.
- `getDiscoveryEntries` is a plain getter of `discoveryEntries`.
- Rpc.RequestStatus.SetDescriptionList: the Java list is shared with the caller after the call, and this aliasing is not modelled. The getters are plain field reads.
- ProxyAttributes: the `subscribe` and `unsubscribe` bodies, the subscription manager, `sendRequestOnSuccess`/`Typing.augmentTypes` and the promise machinery are left out. Only which of these operations exist is modelled.
- ProxyAttributes.FirstUpper: upper-cases ASCII letters only, where JavaScript `toUpperCase` covers all of Unicode.
- ProxyAttributes.MergedQos: the defaults of `new MessagingQos()` are a parameter. `UtilInternal.extend` is taken to copy defined properties shallowly.
- A value thrown by `checkMembers` is modelled by its `toString()` text, which is what `set` appends to its rejection message (for an `Error`, "Error: " followed by the message). A thrown value that is falsy in JavaScript, such as `""` or `0`, is not modelled: `set` would then send the request, while the model rejects it.
- Calling the constructor without `new` is left out.
- `settings || {}` is modelled for missing settings only, not for other falsy values.
