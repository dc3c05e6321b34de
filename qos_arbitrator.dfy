/**
 * QoS arbitration: from the discovery entries found for a domain and
 * interface, choose the provider with the highest priority, optionally only
 * among providers that support on-change subscriptions.
 */
module QosArbitration {
  import opened Rpc

  datatype CommunicationMiddleware = NoMiddleware | Joynr | CommonApiDbus | Browser | WebSocket | SomeIp

  datatype ProviderQos = ProviderQos(priority: int, supportsOnChangeSubscriptions: bool)

  datatype DiscoveryEntry = DiscoveryEntry(
    domain: string,
    interfaceName: string,
    participantId: string,
    qos: ProviderQos,
    connections: seq<CommunicationMiddleware>)

  datatype ArbitrationStatus = ArbitrationRunning | ArbitrationSuccessful | ArbitrationCanceledForever

  /** An entry takes part in the selection unless on-change support is required and it lacks it. */
  predicate Eligible(entry: DiscoveryEntry, mustSupportOnChange: bool)
  {
    !mustSupportOnChange || entry.qos.supportsOnChangeSubscriptions
  }

  /**
   * Among the first `n` entries, entry `i` is eligible, has a priority above -1, has the highest
   * priority of the eligible entries, and every earlier eligible entry has a strictly lower priority.
   */
  ghost predicate IsPreferredAmong(entries: seq<DiscoveryEntry>, mustSupportOnChange: bool, i: int, n: nat)
  {
    && n <= |entries|
    && 0 <= i < n
    && Eligible(entries[i], mustSupportOnChange)
    && entries[i].qos.priority > -1
    && (forall j :: 0 <= j < n && Eligible(entries[j], mustSupportOnChange) ==>
          entries[j].qos.priority <= entries[i].qos.priority)
    && (forall j :: 0 <= j < i && Eligible(entries[j], mustSupportOnChange) ==>
          entries[j].qos.priority < entries[i].qos.priority)
  }

  ghost predicate IsPreferred(entries: seq<DiscoveryEntry>, mustSupportOnChange: bool, i: int)
  {
    IsPreferredAmong(entries, mustSupportOnChange, i, |entries|)
  }

  /** At most one entry is preferred: ties go to the earliest entry. */
  lemma PreferredIsUnique(entries: seq<DiscoveryEntry>, mustSupportOnChange: bool, i: int, k: int)
    requires IsPreferred(entries, mustSupportOnChange, i) && IsPreferred(entries, mustSupportOnChange, k)
    ensures i == k
  {
  }

  /** A preferred entry exists exactly when some eligible entry has a priority above -1. */
  lemma {:induction false} PreferredExists(entries: seq<DiscoveryEntry>, mustSupportOnChange: bool, n: nat)
    requires n <= |entries|
    ensures (exists i :: IsPreferredAmong(entries, mustSupportOnChange, i, n)) <==>
            (exists j :: 0 <= j < n && Eligible(entries[j], mustSupportOnChange) && entries[j].qos.priority > -1)
  {
    if n > 0 {
      var m := n - 1;
      PreferredExists(entries, mustSupportOnChange, m);
      var e := entries[m];
      if exists i :: IsPreferredAmong(entries, mustSupportOnChange, i, m) {
        var i :| IsPreferredAmong(entries, mustSupportOnChange, i, m);
        if Eligible(e, mustSupportOnChange) && e.qos.priority > entries[i].qos.priority {
          assert IsPreferredAmong(entries, mustSupportOnChange, n - 1, n);
        } else {
          assert IsPreferredAmong(entries, mustSupportOnChange, i, n);
        }
      } else if Eligible(e, mustSupportOnChange) && e.qos.priority > -1 {
        assert IsPreferredAmong(entries, mustSupportOnChange, n - 1, n);
      }
    }
  }

  /** The index of the preferred entry, if there is one. */
  ghost function Selection(entries: seq<DiscoveryEntry>, mustSupportOnChange: bool): (r: int)
    ensures r == -1 || IsPreferred(entries, mustSupportOnChange, r)
    ensures r == -1 <==> forall i :: !IsPreferred(entries, mustSupportOnChange, i)
  {
    if exists i :: IsPreferred(entries, mustSupportOnChange, i)
    then var i :| IsPreferred(entries, mustSupportOnChange, i); i
    else -1
  }

  class QosArbitrator {
    const domain: string
    const interfaceName: string
    /** DiscoveryQos::getProviderMustSupportOnChange. */
    const providerMustSupportOnChange: bool
    /** selectPreferredCommunicationMiddleware, which is not part of this model. */
    const selectPreferredCommunicationMiddleware: seq<CommunicationMiddleware> -> CommunicationMiddleware
    /** The arbitration state that updateArbitrationStatusParticipantIdAndAddress sets. */
    var arbitrationStatus: ArbitrationStatus
    var participantId: string
    var connection: CommunicationMiddleware

    constructor (domain: string, interfaceName: string, providerMustSupportOnChange: bool,
                 selectPreferredCommunicationMiddleware: seq<CommunicationMiddleware> -> CommunicationMiddleware)
      ensures this.domain == domain && this.interfaceName == interfaceName
      ensures this.providerMustSupportOnChange == providerMustSupportOnChange
      ensures this.selectPreferredCommunicationMiddleware == selectPreferredCommunicationMiddleware
      ensures arbitrationStatus == ArbitrationRunning && participantId == "" && connection == NoMiddleware
    {
      this.domain := domain;
      this.interfaceName := interfaceName;
      this.providerMustSupportOnChange := providerMustSupportOnChange;
      this.selectPreferredCommunicationMiddleware := selectPreferredCommunicationMiddleware;
      arbitrationStatus := ArbitrationRunning;
      participantId := "";
      connection := NoMiddleware;
    }

    /**
     * The state a lookup result leads to: with a preferred entry whose participant id is not
     * empty, ArbitrationSuccessful with that entry's id and the middleware selected for its
     * connections; otherwise the state is left as it was.
     */
    ghost predicate ArbitratedFrom(entries: seq<DiscoveryEntry>, status: ArbitrationStatus, id: string,
                                   conn: CommunicationMiddleware)
      reads this
    {
      var sel := Selection(entries, providerMustSupportOnChange);
      if sel >= 0 && entries[sel].participantId != "" then
        && arbitrationStatus == ArbitrationSuccessful
        && participantId == entries[sel].participantId
        && connection == selectPreferredCommunicationMiddleware(entries[sel].connections)
      else
        arbitrationStatus == status && participantId == id && connection == conn
    }

    /** receiveCapabilitiesLookupResults: keep the first entry of strictly highest priority. */
    method ReceiveCapabilitiesLookupResults(discoveryEntries: seq<DiscoveryEntry>)
      modifies this`arbitrationStatus, this`participantId, this`connection
      ensures ArbitratedFrom(discoveryEntries, old(arbitrationStatus), old(participantId), old(connection))
    {
      var res := "";
      var preferredConnection := NoMiddleware;
      if |discoveryEntries| == 0 {
        return;
      }
      var highestPriority := -1;
      ghost var best := -1;
      var k := 0;
      while k < |discoveryEntries|
        invariant 0 <= k <= |discoveryEntries|
        invariant best == -1 ==> res == "" && highestPriority == -1
        invariant best == -1 ==> forall j :: 0 <= j < k && Eligible(discoveryEntries[j], providerMustSupportOnChange) ==>
                                   discoveryEntries[j].qos.priority <= -1
        invariant best != -1 ==> IsPreferredAmong(discoveryEntries, providerMustSupportOnChange, best, k)
        invariant best != -1 ==> res == discoveryEntries[best].participantId
        invariant best != -1 ==> highestPriority == discoveryEntries[best].qos.priority
        invariant best != -1 ==>
                    preferredConnection == selectPreferredCommunicationMiddleware(discoveryEntries[best].connections)
      {
        var discoveryEntry := discoveryEntries[k];
        var providerQos := discoveryEntry.qos;
        if providerMustSupportOnChange && !providerQos.supportsOnChangeSubscriptions {
          k := k + 1;
          continue;
        }
        if providerQos.priority > highestPriority {
          res := discoveryEntry.participantId;
          preferredConnection := selectPreferredCommunicationMiddleware(discoveryEntry.connections);
          highestPriority := providerQos.priority;
          best := k;
        }
        k := k + 1;
      }
      assert best == -1 ==> forall i :: !IsPreferred(discoveryEntries, providerMustSupportOnChange, i);
      assert best != -1 ==> Selection(discoveryEntries, providerMustSupportOnChange) == best by {
        if best != -1 {
          assert IsPreferred(discoveryEntries, providerMustSupportOnChange, best);
          PreferredIsUnique(discoveryEntries, providerMustSupportOnChange, best,
                            Selection(discoveryEntries, providerMustSupportOnChange));
        }
      }
      if res == "" {
        return;
      }
      arbitrationStatus, participantId, connection := ArbitrationSuccessful, res, preferredConnection;
    }

    /**
     * attemptArbitration, given what the discovery lookup returned: the entries are passed on
     * only when the lookup status is successful; otherwise nothing changes.
     */
    method AttemptArbitration(lookupStatus: RequestStatus, lookupResult: seq<DiscoveryEntry>)
      modifies this`arbitrationStatus, this`participantId, this`connection
      ensures !lookupStatus.Successful() ==>
                arbitrationStatus == old(arbitrationStatus) && participantId == old(participantId) &&
                connection == old(connection)
      ensures lookupStatus.Successful() ==>
                ArbitratedFrom(lookupResult, old(arbitrationStatus), old(participantId), old(connection))
    {
      if lookupStatus.Successful() {
        ReceiveCapabilitiesLookupResults(lookupResult);
      }
    }
  }
}
