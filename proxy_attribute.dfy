/**
 * The attribute of a generated JavaScript proxy: which operations the capability string
 * installs, the request each operation builds, the argument check on `set`, and the
 * precedence of the messaging QoS settings a request is sent with.
 */
module ProxyAttributes {
  import opened Common
  import Util

  // ---------------------------------------------------------------------------
  // Capability dispatch
  // ---------------------------------------------------------------------------

  /** `sub` occurs in `s` starting at index i. */
  predicate OccursAt(s: string, sub: string, i: nat)
  {
    i + |sub| <= |s| && s[i..i + |sub|] == sub
  }

  /** A regular expression made of plain letters, as `caps.match(/READ/)` uses it: a substring search. */
  function Matches(s: string, sub: string): bool
    decreases |s|
  {
    if |s| < |sub| then false
    else if s[..|sub|] == sub then true
    else Matches(s[1..], sub)
  }

  /** An occurrence at i > 0 is an occurrence at i - 1 in the string without its first character. */
  lemma ShiftOccurrence(s: string, sub: string, i: nat)
    requires 0 < i && 0 < |s|
    ensures OccursAt(s, sub, i) <==> OccursAt(s[1..], sub, i - 1)
  {
    if i + |sub| <= |s| {
      assert s[1..][i - 1..i - 1 + |sub|] == s[i..i + |sub|];
    }
  }

  lemma {:induction false} MatchesIffOccurs(s: string, sub: string)
    ensures Matches(s, sub) <==> exists i: nat :: OccursAt(s, sub, i)
    decreases |s|
  {
    if |s| < |sub| {
      forall i: nat ensures !OccursAt(s, sub, i) { }
    } else if s[..|sub|] == sub {
      assert OccursAt(s, sub, 0);
    } else {
      MatchesIffOccurs(s[1..], sub);
      if Matches(s[1..], sub) {
        var i: nat :| OccursAt(s[1..], sub, i);
        ShiftOccurrence(s, sub, i + 1);
      } else {
        forall i: nat ensures !OccursAt(s, sub, i) {
          if i == 0 {
            assert s[0..|sub|] == s[..|sub|];
          } else {
            ShiftOccurrence(s, sub, i);
          }
        }
      }
    }
  }

  /** Which of get, set, subscribe and unsubscribe an attribute has. */
  datatype Operations = Operations(hasGet: bool, hasSet: bool, hasSubscribe: bool, hasUnsubscribe: bool)

  /** The operations installed for a capability string such as "NOTIFYREADWRITE". */
  function OperationsFor(attributeCaps: string): Operations
  {
    Operations(Matches(attributeCaps, "READ"), Matches(attributeCaps, "WRITE"),
               Matches(attributeCaps, "NOTIFY"), Matches(attributeCaps, "NOTIFY"))
  }

  /** Each operation exists exactly when its keyword occurs somewhere in the capability string. */
  lemma OperationsForKeywords(attributeCaps: string)
    ensures OperationsFor(attributeCaps).hasGet <==> exists i: nat :: OccursAt(attributeCaps, "READ", i)
    ensures OperationsFor(attributeCaps).hasSet <==> exists i: nat :: OccursAt(attributeCaps, "WRITE", i)
    ensures OperationsFor(attributeCaps).hasSubscribe <==> exists i: nat :: OccursAt(attributeCaps, "NOTIFY", i)
    ensures OperationsFor(attributeCaps).hasUnsubscribe == OperationsFor(attributeCaps).hasSubscribe
  {
    MatchesIffOccurs(attributeCaps, "READ");
    MatchesIffOccurs(attributeCaps, "WRITE");
    MatchesIffOccurs(attributeCaps, "NOTIFY");
  }

  /** The capability strings the generator emits select the operations their names say. */
  lemma NotifyReadWriteCapabilities()
    ensures OperationsFor("NOTIFYREADWRITE") == Operations(true, true, true, true)
  {
    var caps := "NOTIFYREADWRITE";
    assert caps[6..10] == "READ" && caps[10..15] == "WRITE" && caps[0..6] == "NOTIFY";
    OccurrenceMatches(caps, "READ", 6);
    OccurrenceMatches(caps, "WRITE", 10);
    OccurrenceMatches(caps, "NOTIFY", 0);
  }

  lemma ReadWriteCapabilities()
    ensures OperationsFor("READWRITE") == Operations(true, true, false, false)
  {
    var caps := "READWRITE";
    assert caps[0..4] == "READ" && caps[4..9] == "WRITE";
    OccurrenceMatches(caps, "READ", 0);
    OccurrenceMatches(caps, "WRITE", 4);
    MissingLetterNoMatch(caps, "NOTIFY", 4);
  }

  lemma ReadOnlyCapabilities()
    ensures OperationsFor("READONLY") == Operations(true, false, false, false)
  {
    var caps := "READONLY";
    assert caps[0..4] == "READ";
    OccurrenceMatches(caps, "READ", 0);
    MissingLetterNoMatch(caps, "WRITE", 0);
    MissingLetterNoMatch(caps, "NOTIFY", 4);
  }

  lemma WriteOnlyCapabilities()
    ensures OperationsFor("WRITEONLY") == Operations(false, true, false, false)
  {
    var caps := "WRITEONLY";
    assert caps[0..5] == "WRITE";
    OccurrenceMatches(caps, "WRITE", 0);
    MissingLetterNoMatch(caps, "READ", 2);
    MissingLetterNoMatch(caps, "NOTIFY", 4);
  }

  lemma NotifyOnlyCapabilities()
    ensures OperationsFor("NOTIFY") == Operations(false, false, true, true)
  {
    var caps := "NOTIFY";
    OccurrenceMatches(caps, "NOTIFY", 0);
    MissingLetterNoMatch(caps, "READ", 0);
    MissingLetterNoMatch(caps, "WRITE", 0);
  }

  lemma OccurrenceMatches(s: string, sub: string, i: nat)
    requires OccursAt(s, sub, i)
    ensures Matches(s, sub)
  {
    MatchesIffOccurs(s, sub);
  }

  /** A keyword with a letter the string lacks does not match. */
  lemma MissingLetterNoMatch(s: string, sub: string, k: nat)
    requires k < |sub| && sub[k] !in s
    ensures !Matches(s, sub)
  {
    MatchesIffOccurs(s, sub);
  }

  // ---------------------------------------------------------------------------
  // Values, the type registry and checkArgument
  // ---------------------------------------------------------------------------

  /** A JavaScript value passed as an attribute value; an object may carry a `_typeName`. */
  datatype Value =
    | Undefined
    | Null
    | Primitive(text: string)
    | Object(typeName: Option<string>, members: map<string, Value>)

  /**
   * A constructor registered in the type registry; `checkMembers`, when the constructor has
   * one, yields the `toString()` text of the value it throws (for an `Error`, "Error: " followed
   * by its message), or None when the members are fine.
   */
  datatype TypeConstructor = TypeConstructor(checkMembers: Option<Value -> Option<string>>)

  type TypeRegistry = map<string, TypeConstructor>

  /**
   * checkArgument: the `toString()` text of what checkMembers throws for the value, if anything. A null or undefined
   * value, a value without a registered type and a type without checkMembers pass.
   */
  function CheckArgument(value: Value, registry: TypeRegistry): (error: Option<string>)
    ensures (value.Undefined? || value.Null?) ==> error.None?
    ensures error.Some? <==>
              && value.Object? && value.typeName.Some? && value.typeName.value in registry
              && registry[value.typeName.value].checkMembers.Some?
              && registry[value.typeName.value].checkMembers.value(value).Some?
    ensures error.Some? ==> error == registry[value.typeName.value].checkMembers.value(value)
  {
    if value.Undefined? || value.Null? then None
    else if value.Object? && value.typeName.Some? && value.typeName.value in registry then
      var typeConstructor := registry[value.typeName.value];
      if typeConstructor.checkMembers.Some? then typeConstructor.checkMembers.value(value) else None
    else None
  }

  // ---------------------------------------------------------------------------
  // Messaging QoS precedence
  // ---------------------------------------------------------------------------

  datatype QosValue = Number(n: int) | Flag(b: bool) | Headers(headers: map<string, string>)

  /** The defined properties of a messaging QoS object; an undefined property is absent. */
  type MessagingQos = map<string, QosValue>

  /** The QoS object is given and defines the property. */
  predicate Defines(qos: Option<MessagingQos>, key: string)
  {
    qos.Some? && key in qos.value
  }

  /** UtilInternal.extend(target, source): every defined property of the source overwrites the target's. */
  function Extend(target: MessagingQos, source: Option<MessagingQos>): MessagingQos
  {
    if source.Some? then target + source.value else target
  }

  /**
   * The messaging QoS executeRequest sends with: the defaults of a new MessagingQos, extended by
   * the parent proxy's settings, then the attribute's, then the request's.
   */
  function MergedQos(defaults: MessagingQos, parentQos: Option<MessagingQos>, attributeQos: Option<MessagingQos>,
                     requestQos: Option<MessagingQos>): MessagingQos
  {
    Extend(Extend(Extend(defaults, parentQos), attributeQos), requestQos)
  }

  /** The right-most setting wins for every property; a property nobody sets keeps its default. */
  lemma MergedQosPrecedence(defaults: MessagingQos, parentQos: Option<MessagingQos>, attributeQos: Option<MessagingQos>,
                            requestQos: Option<MessagingQos>, key: string)
    ensures var merged := MergedQos(defaults, parentQos, attributeQos, requestQos);
            && (key in merged <==>
                  key in defaults || Defines(parentQos, key) || Defines(attributeQos, key) || Defines(requestQos, key))
            && (Defines(requestQos, key) ==> merged[key] == requestQos.value[key])
            && (!Defines(requestQos, key) && Defines(attributeQos, key) ==> merged[key] == attributeQos.value[key])
            && (!Defines(requestQos, key) && !Defines(attributeQos, key) && Defines(parentQos, key) ==>
                  merged[key] == parentQos.value[key])
            && ((!Defines(requestQos, key) && !Defines(attributeQos, key) && !Defines(parentQos, key) &&
                 key in defaults) ==> merged[key] == defaults[key])
  {
  }

  // ---------------------------------------------------------------------------
  // Requests
  // ---------------------------------------------------------------------------

  /** UtilInternal.firstUpper: the first character upper-cased (ASCII letters only here). */
  function FirstUpper(s: string): (r: string)
    ensures |r| == |s|
    ensures |s| > 0 ==> r[0] == Util.ToUpper(s[0]) && r[1..] == s[1..]
  {
    if |s| == 0 then s else [Util.ToUpper(s[0])] + s[1..]
  }

  /** A request: the provider method to call, the types of its parameters and their values. */
  datatype Request = Request(methodName: string, paramDatatypes: seq<string>, params: seq<Value>)

  /** The settings object of a get or set call; a missing object behaves as `{}`. */
  datatype RequestSettings = RequestSettings(value: Value, messagingQos: Option<MessagingQos>)

  function SettingsOrEmpty(settings: Option<RequestSettings>): RequestSettings
  {
    if settings.Some? then settings.value else RequestSettings(Undefined, None)
  }

  /** The arguments executeRequest hands to requestReplyManager.sendRequest. */
  datatype SendRequestCall = SendRequestCall(toDiscoveryEntry: string, from: string, messagingQos: MessagingQos,
                                             request: Request, attributeType: string)

  /** The proxy object that contains the attribute. */
  datatype ProxyParent = ProxyParent(proxyParticipantId: string, providerDiscoveryEntry: string,
                                     messagingQos: Option<MessagingQos>)

  class ProxyAttribute {
    const parent: ProxyParent
    const settingsMessagingQos: Option<MessagingQos>
    const attributeName: string
    const attributeType: string
    /** The operations the constructor installed on the object. */
    const operations: Operations
    /** The messaging QoS a `new MessagingQos()` starts with. */
    const defaultQos: MessagingQos
    const typeRegistry: TypeRegistry

    /** The constructor: get for "READ", set for "WRITE", subscribe and unsubscribe for "NOTIFY". */
    constructor (parent: ProxyParent, settingsMessagingQos: Option<MessagingQos>, attributeName: string,
                 attributeType: string, attributeCaps: string, defaultQos: MessagingQos, typeRegistry: TypeRegistry)
      ensures this.parent == parent && this.settingsMessagingQos == settingsMessagingQos
      ensures this.attributeName == attributeName && this.attributeType == attributeType
      ensures this.defaultQos == defaultQos && this.typeRegistry == typeRegistry
      ensures operations.hasGet <==> exists i: nat :: OccursAt(attributeCaps, "READ", i)
      ensures operations.hasSet <==> exists i: nat :: OccursAt(attributeCaps, "WRITE", i)
      ensures operations.hasSubscribe <==> exists i: nat :: OccursAt(attributeCaps, "NOTIFY", i)
      ensures operations.hasUnsubscribe <==> exists i: nat :: OccursAt(attributeCaps, "NOTIFY", i)
    {
      this.parent := parent;
      this.settingsMessagingQos := settingsMessagingQos;
      this.attributeName := attributeName;
      this.attributeType := attributeType;
      this.defaultQos := defaultQos;
      this.typeRegistry := typeRegistry;
      operations := OperationsFor(attributeCaps);
      OperationsForKeywords(attributeCaps);
    }

    /** executeRequest: the request goes to the provider from the proxy with the merged messaging QoS. */
    function ExecuteRequest(request: Request, requestSettings: RequestSettings): (call: SendRequestCall)
      ensures call.request == request && call.attributeType == attributeType
      ensures call.toDiscoveryEntry == parent.providerDiscoveryEntry && call.from == parent.proxyParticipantId
      ensures forall key :: key in call.messagingQos <==>
                key in defaultQos || Defines(parent.messagingQos, key) || Defines(settingsMessagingQos, key) ||
                Defines(requestSettings.messagingQos, key)
      ensures forall key :: Defines(requestSettings.messagingQos, key) ==>
                key in call.messagingQos && call.messagingQos[key] == requestSettings.messagingQos.value[key]
      ensures forall key :: !Defines(requestSettings.messagingQos, key) && Defines(settingsMessagingQos, key) ==>
                key in call.messagingQos && call.messagingQos[key] == settingsMessagingQos.value[key]
    {
      SendRequestCall(parent.providerDiscoveryEntry, parent.proxyParticipantId,
                      MergedQos(defaultQos, parent.messagingQos, settingsMessagingQos, requestSettings.messagingQos),
                      request, attributeType)
    }

    /** get: a request for "get" + the capitalised attribute name, without parameters. */
    function Get(settings: Option<RequestSettings>): (call: SendRequestCall)
      requires operations.hasGet
      ensures |call.request.methodName| == |attributeName| + 3
      ensures call.request.methodName[..3] == "get" && call.request.methodName[3..] == FirstUpper(attributeName)
      ensures call.request.paramDatatypes == [] && call.request.params == []
      ensures call == ExecuteRequest(call.request, SettingsOrEmpty(settings))
    {
      ExecuteRequest(Request("get" + FirstUpper(attributeName), [], []), SettingsOrEmpty(settings))
    }

    /**
     * set: a value the argument check rejects gives a rejected promise, whose error text ends in the
     * `toString()` text of the thrown value, and no request; otherwise
     * a request for "set" + the capitalised attribute name with the value as its one parameter.
     */
    function Set(settings: Option<RequestSettings>): (result: Result<SendRequestCall, string>)
      requires operations.hasSet
      ensures CheckArgument(SettingsOrEmpty(settings).value, typeRegistry).Some? <==> result.Err?
      ensures result.Err? ==>
                result.error == "error setting attribute: " + attributeName + ": " +
                                CheckArgument(SettingsOrEmpty(settings).value, typeRegistry).value
      ensures result.Ok? ==>
                && |result.value.request.methodName| == |attributeName| + 3
                && result.value.request.methodName[..3] == "set"
                && result.value.request.methodName[3..] == FirstUpper(attributeName)
                && result.value.request.paramDatatypes == [attributeType]
                && result.value.request.params == [SettingsOrEmpty(settings).value]
                && result.value == ExecuteRequest(result.value.request, SettingsOrEmpty(settings))
    {
      var requestSettings := SettingsOrEmpty(settings);
      var error := CheckArgument(requestSettings.value, typeRegistry);
      if error.Some? then
        Err("error setting attribute: " + attributeName + ": " + error.value)
      else
        Ok(ExecuteRequest(Request("set" + FirstUpper(attributeName), [attributeType], [requestSettings.value]),
                          requestSettings))
    }
  }

  /** Setting null, or omitting the settings object, always sends a request. */
  lemma SetNullIsNeverRejected(attribute: ProxyAttribute, value: Value)
    requires attribute.operations.hasSet
    requires value.Null? || value.Undefined?
    ensures attribute.Set(Some(RequestSettings(value, None))).Ok?
    ensures attribute.Set(None).Ok?
  {
  }
}
