/**
 * Static capability provisioning: the discovery entries read from a JSON
 * document at start-up, overridden by the legacy settings for the two
 * infrastructure services, and entered into the routing table.
 */
module Provisioning {
  import opened Common
  import opened RoutingTypes

  /** Where a provider is visible. */
  datatype ProviderScope = GlobalScope | LocalScope

  /** The provider's quality of service as a discovery entry carries it. */
  datatype ProviderQos = ProviderQos(customParameters: seq<(string, string)>, priority: int, scope: ProviderScope,
                                     supportsOnChangeSubscriptions: bool)

  /**
   * The fields of a discovery entry that provisioning neither reads nor changes. They take
   * part in entry equality, so two entries that differ only here are two members of the set.
   */
  datatype EntryDetails = EntryDetails(majorVersion: int, minorVersion: int, qos: ProviderQos, expiryDateMs: int,
                                       publicKeyId: string)

  /**
   * A plain discovery entry, or a global one that also carries the address of its provider.
   * The global entry's address is kept as a structured value: its JSON text form and the
   * parsing of it are not modelled.
   */
  datatype DiscoveryEntry =
    | LocalEntry(domain: string, interfaceName: string, participantId: string, details: EntryDetails,
                 lastSeenDateMs: int)
    | GlobalEntry(domain: string, interfaceName: string, participantId: string, details: EntryDetails,
                  lastSeenDateMs: int, address: Address)

  type GlobalDiscoveryEntry = e: DiscoveryEntry | e.GlobalEntry?
    witness GlobalEntry("", "", "", EntryDetails(0, 0, ProviderQos([], 0, GlobalScope, false), 0, ""), 0, InProcess)

  /**
   * What Jackson's readValue yields for the JSON text: a parse failure (IOException), a null
   * list (the text `null`), or the list of entries.
   */
  datatype ParsedJson = Unparsable | NullList | EntryList(entries: seq<GlobalDiscoveryEntry>)

  /** The interface names of the two infrastructure services with legacy settings. */
  const GlobalCapabilitiesDirectoryInterface: string := "infrastructure/GlobalCapabilitiesDirectory"
  const GlobalDomainAccessControllerInterface: string := "infrastructure/GlobalDomainAccessController"

  /**
   * Why provisioning fails: the JSON document could not be parsed (JoynrRuntimeException), or it
   * held a null list, whose iteration raises a NullPointerException that nothing catches.
   */
  datatype ProvisioningError = InvalidJson(json: string) | NullEntryList

  predicate IsGlobalFor(e: DiscoveryEntry, interfaceName: string)
  {
    e.GlobalEntry? && e.interfaceName == interfaceName
  }

  /** A channel address or MQTT address naming this cluster controller's own channel. */
  predicate IsLocalAddress(address: Address, localChannelId: string)
  {
    (address.Channel? && address.channelId == localChannelId) || (address.Mqtt? && address.topic == localChannelId)
  }

  /**
   * The address of a local provider is replaced by the in-process address: the result is never
   * a local address, it differs from the input exactly when the input was local, and the only
   * address put in its place is the in-process one.
   */
  function SubstituteInProcessAddressIfLocal(address: Address, localChannelId: string): (r: Address)
    ensures !IsLocalAddress(r, localChannelId)
    ensures r == address <==> !IsLocalAddress(address, localChannelId)
    ensures r != address ==> r == InProcess
  {
    if IsLocalAddress(address, localChannelId) then InProcess
    else address
  }

  /** An entry as addEntriesFromJson stores it: last seen now, with a local address made in-process. */
  function Provisioned(e: GlobalDiscoveryEntry, now: int, localChannelId: string): (r: GlobalDiscoveryEntry)
    ensures r.lastSeenDateMs == now
    ensures r.address == SubstituteInProcessAddressIfLocal(e.address, localChannelId)
    ensures r.domain == e.domain && r.interfaceName == e.interfaceName && r.participantId == e.participantId
    ensures r.details == e.details
  {
    e.(lastSeenDateMs := now, address := SubstituteInProcessAddressIfLocal(e.address, localChannelId))
  }

  ghost function ProvisionedSet(parsed: seq<GlobalDiscoveryEntry>, now: int, localChannelId: string): set<DiscoveryEntry>
  {
    set i | 0 <= i < |parsed| :: Provisioned(parsed[i], now, localChannelId)
  }

  /**
   * No loaded entry has a local address; a loaded entry whose address was not local keeps it,
   * and one whose address was local is in-process.
   */
  lemma ProvisionedAddresses(parsed: seq<GlobalDiscoveryEntry>, now: int, localChannelId: string)
    ensures forall e :: e in ProvisionedSet(parsed, now, localChannelId) ==> !IsLocalAddress(e.address, localChannelId)
    ensures forall i :: 0 <= i < |parsed| ==>
              var e := Provisioned(parsed[i], now, localChannelId);
              && e in ProvisionedSet(parsed, now, localChannelId)
              && (!IsLocalAddress(parsed[i].address, localChannelId) ==> e.address == parsed[i].address)
              && (IsLocalAddress(parsed[i].address, localChannelId) ==> e.address == InProcess)
  {
    forall e | e in ProvisionedSet(parsed, now, localChannelId)
      ensures !IsLocalAddress(e.address, localChannelId)
    {
      var i :| 0 <= i < |parsed| && e == Provisioned(parsed[i], now, localChannelId);
    }
  }

  /**
   * `removed` is what removeExistingEntryForInterface may take out of `before`: a global entry
   * for the interface if there is one, and nothing otherwise.
   */
  ghost predicate RemovalChoice(before: set<DiscoveryEntry>, interfaceName: string, removed: Option<DiscoveryEntry>)
  {
    && (removed.Some? ==> removed.value in before && IsGlobalFor(removed.value, interfaceName))
    && (removed.None? ==> forall e :: e in before ==> !IsGlobalFor(e, interfaceName))
  }

  function RemovedSet(removed: Option<DiscoveryEntry>): set<DiscoveryEntry>
  {
    if removed.Some? then {removed.value} else {}
  }

  /** The set after one legacy override: unchanged for a null entry, else one entry replaced by the legacy one. */
  function Replaced(before: set<DiscoveryEntry>, legacy: Option<DiscoveryEntry>, removed: Option<DiscoveryEntry>)
    : set<DiscoveryEntry>
  {
    if legacy.None? then before else before - RemovedSet(removed) + {legacy.value}
  }

  /** The participant ids of the global entries of a set. */
  ghost function GlobalParticipantIds(entries: set<DiscoveryEntry>): set<string>
  {
    set e | e in entries && e.GlobalEntry? :: e.participantId
  }

  /**
   * A legacy override removes at most one entry, only a global entry for the interface,
   * and leaves the legacy entry in the set.
   */
  lemma OverrideReplacesAtMostOne(before: set<DiscoveryEntry>, interfaceName: string, legacy: Option<DiscoveryEntry>,
                                  removed: Option<DiscoveryEntry>)
    requires RemovalChoice(before, interfaceName, removed)
    ensures legacy.None? ==> Replaced(before, legacy, removed) == before
    ensures legacy.Some? ==> legacy.value in Replaced(before, legacy, removed)
    ensures |before - Replaced(before, legacy, removed)| <= 1
    ensures forall e :: e in before && !IsGlobalFor(e, interfaceName) ==> e in Replaced(before, legacy, removed)
    ensures Replaced(before, legacy, removed) <= before + RemovedSet(legacy)
  {
    var after := Replaced(before, legacy, removed);
    assert before - after <= RemovedSet(removed);
    assert |RemovedSet(removed)| <= 1;
    SubsetCardinality(before - after, RemovedSet(removed));
  }

  /**
   * Two provisioned entries for one interface and participant that differ only in their other
   * fields are two members of the set, so a legacy override removes one of them and the
   * participant stays routed next to the legacy entry's participant.
   */
  lemma OverrideKeepsDuplicateEntry(e1: DiscoveryEntry, d2: EntryDetails, interfaceName: string,
                                    legacy: DiscoveryEntry, removed: Option<DiscoveryEntry>)
    requires IsGlobalFor(e1, interfaceName) && e1.details != d2
    requires legacy.GlobalEntry?
    requires RemovalChoice({e1, e1.(details := d2)}, interfaceName, removed)
    ensures |{e1, e1.(details := d2)}| == 2
    ensures |Replaced({e1, e1.(details := d2)}, Some(legacy), removed) * {e1, e1.(details := d2)}| >= 1
    ensures GlobalParticipantIds(Replaced({e1, e1.(details := d2)}, Some(legacy), removed))
            == {e1.participantId, legacy.participantId}
  {
    var e2 := e1.(details := d2);
    var after := Replaced({e1, e2}, Some(legacy), removed);
    assert removed.Some?;
    var kept := if removed.value == e1 then e2 else e1;
    assert kept in after && kept in {e1, e2};
    assert after * {e1, e2} >= {kept};
    SubsetCardinality({kept}, after * {e1, e2});
    assert after <= {e1, e2, legacy};
    assert GlobalParticipantIds(after) == {e1.participantId, legacy.participantId} by {
      assert kept.participantId == e1.participantId;
      assert legacy in after;
    }
  }

  /**
   * Both legacy overrides in turn: the legacy entries are present, only a global entry for one
   * of the two interfaces is ever lost, at most the two chosen ones are, and with no legacy
   * entries nothing changes.
   */
  lemma LegacyOverrides(loaded: set<DiscoveryEntry>, globalCapabilitiesEntry: Option<DiscoveryEntry>,
                        domainAccessControllerEntry: Option<DiscoveryEntry>,
                        removedGcd: Option<DiscoveryEntry>, removedGdac: Option<DiscoveryEntry>)
    requires RemovalChoice(loaded, GlobalCapabilitiesDirectoryInterface, removedGcd)
    requires RemovalChoice(Replaced(loaded, globalCapabilitiesEntry, removedGcd), GlobalDomainAccessControllerInterface,
                           removedGdac)
    ensures var entries := Replaced(Replaced(loaded, globalCapabilitiesEntry, removedGcd),
                                    domainAccessControllerEntry, removedGdac);
            && ((globalCapabilitiesEntry.Some? &&
                 !IsGlobalFor(globalCapabilitiesEntry.value, GlobalDomainAccessControllerInterface)) ==>
                  globalCapabilitiesEntry.value in entries)
            && (domainAccessControllerEntry.Some? ==> domainAccessControllerEntry.value in entries)
            && entries <= loaded + RemovedSet(globalCapabilitiesEntry) + RemovedSet(domainAccessControllerEntry)
            && (forall e :: (e in loaded &&
                             !IsGlobalFor(e, GlobalCapabilitiesDirectoryInterface) &&
                             !IsGlobalFor(e, GlobalDomainAccessControllerInterface)) ==> e in entries)
            && loaded - entries <= RemovedSet(removedGcd) + RemovedSet(removedGdac)
            && (globalCapabilitiesEntry.None? && domainAccessControllerEntry.None? ==> entries == loaded)
  {
    var overridden := Replaced(loaded, globalCapabilitiesEntry, removedGcd);
    OverrideReplacesAtMostOne(loaded, GlobalCapabilitiesDirectoryInterface, globalCapabilitiesEntry, removedGcd);
    OverrideReplacesAtMostOne(overridden, GlobalDomainAccessControllerInterface, domainAccessControllerEntry, removedGdac);
  }

  lemma SubsetCardinality<T>(a: set<T>, b: set<T>)
    requires a <= b
    ensures |a| <= |b|
  {
    assert b == a + (b - a);
  }

  class StaticCapabilitiesProvisioning {
    var discoveryEntries: set<DiscoveryEntry>

    /** The provisioned entries start out as an empty set. */
    constructor Empty()
      ensures discoveryEntries == {}
    {
      discoveryEntries := {};
    }

    /**
     * addEntriesFromJson, given the parse result: a parse failure raises naming the text, a null
     * list raises on iteration, and neither adds anything; otherwise every parsed entry is added,
     * last seen now and with a local address replaced by the in-process address.
     */
    method AddEntriesFromJson(json: string, parsed: ParsedJson, now: int, localChannelId: string)
      returns (error: Option<ProvisioningError>)
      modifies this
      ensures parsed.Unparsable? ==> error == Some(InvalidJson(json)) && discoveryEntries == old(discoveryEntries)
      ensures parsed.NullList? ==> error == Some(NullEntryList) && discoveryEntries == old(discoveryEntries)
      ensures parsed.EntryList? ==>
                error.None? && discoveryEntries == old(discoveryEntries) + ProvisionedSet(parsed.entries, now, localChannelId)
    {
      if parsed.Unparsable? {
        return Some(InvalidJson(json));
      } else if parsed.NullList? {
        return Some(NullEntryList);
      }
      var newEntries := parsed.entries;
      for i := 0 to |newEntries|
        invariant discoveryEntries == old(discoveryEntries) + ProvisionedSet(newEntries[..i], now, localChannelId)
      {
        var globalDiscoveryEntry := Provisioned(newEntries[i], now, localChannelId);
        discoveryEntries := discoveryEntries + {globalDiscoveryEntry};
        assert ProvisionedSet(newEntries[..i + 1], now, localChannelId)
            == ProvisionedSet(newEntries[..i], now, localChannelId) + {globalDiscoveryEntry} by {
          assert forall j :: 0 <= j < i ==> newEntries[..i + 1][j] == newEntries[..i][j];
          assert newEntries[..i + 1][i] == newEntries[i];
        }
      }
      assert newEntries[..|newEntries|] == newEntries;
      return None;
    }

    /**
     * removeExistingEntryForInterface: scans the set in its iteration order and removes the first
     * global entry for the interface, if any; `removed` names it.
     */
    method RemoveExistingEntryForInterface(interfaceName: string) returns (ghost removed: Option<DiscoveryEntry>)
      modifies this
      ensures RemovalChoice(old(discoveryEntries), interfaceName, removed)
      ensures discoveryEntries == old(discoveryEntries) - RemovedSet(removed)
    {
      var entryToRemove: Option<DiscoveryEntry> := None;
      var unvisited := discoveryEntries;
      while unvisited != {}
        invariant unvisited <= discoveryEntries && discoveryEntries == old(discoveryEntries)
        invariant forall e :: e in discoveryEntries - unvisited ==> !IsGlobalFor(e, interfaceName)
        decreases |unvisited|
      {
        var discoveryEntry :| discoveryEntry in unvisited;
        if IsGlobalFor(discoveryEntry, interfaceName) {
          entryToRemove := Some(discoveryEntry);
          break;
        }
        unvisited := unvisited - {discoveryEntry};
      }
      if entryToRemove.Some? {
        discoveryEntries := discoveryEntries - {entryToRemove.value};
      }
      removed := entryToRemove;
    }

    /**
     * overrideEntriesFromLegacySettings, given the legacy entries for the two infrastructure
     * services (None for null): each non-null one replaces a global entry for its interface.
     */
    method OverrideEntriesFromLegacySettings(globalCapabilitiesEntry: Option<DiscoveryEntry>,
                                             domainAccessControllerEntry: Option<DiscoveryEntry>)
      returns (ghost removedGcd: Option<DiscoveryEntry>, ghost removedGdac: Option<DiscoveryEntry>)
      modifies this
      ensures RemovalChoice(old(discoveryEntries), GlobalCapabilitiesDirectoryInterface, removedGcd)
      ensures RemovalChoice(Replaced(old(discoveryEntries), globalCapabilitiesEntry, removedGcd),
                            GlobalDomainAccessControllerInterface, removedGdac)
      ensures discoveryEntries == Replaced(Replaced(old(discoveryEntries), globalCapabilitiesEntry, removedGcd),
                                           domainAccessControllerEntry, removedGdac)
    {
      removedGcd, removedGdac := None, None;
      if globalCapabilitiesEntry.Some? {
        removedGcd := RemoveExistingEntryForInterface(GlobalCapabilitiesDirectoryInterface);
        discoveryEntries := discoveryEntries + {globalCapabilitiesEntry.value};
      } else {
        removedGcd := PickRemoval(discoveryEntries, GlobalCapabilitiesDirectoryInterface);
      }
      if domainAccessControllerEntry.Some? {
        removedGdac := RemoveExistingEntryForInterface(GlobalDomainAccessControllerInterface);
        discoveryEntries := discoveryEntries + {domainAccessControllerEntry.value};
      } else {
        removedGdac := PickRemoval(discoveryEntries, GlobalDomainAccessControllerInterface);
      }
    }

    /**
     * addAddressesToRoutingTable: every global entry's participant id is routed to that entry's
     * address; for two global entries with one id, the one visited last wins.
     */
    method AddAddressesToRoutingTable(routingTable: RoutingTable)
      modifies routingTable
      ensures routingTable.table.Keys == old(routingTable.table).Keys + GlobalParticipantIds(discoveryEntries)
      ensures forall p :: p in old(routingTable.table) && p !in GlobalParticipantIds(discoveryEntries) ==>
                routingTable.table[p] == old(routingTable.table)[p]
      ensures forall p :: p in GlobalParticipantIds(discoveryEntries) ==>
                exists e :: e in discoveryEntries && e.GlobalEntry? && e.participantId == p &&
                            routingTable.table[p] == e.address
    {
      var unvisited := discoveryEntries;
      while unvisited != {}
        invariant unvisited <= discoveryEntries
        invariant routingTable.table.Keys == old(routingTable.table).Keys + GlobalParticipantIds(discoveryEntries - unvisited)
        invariant forall p :: p in old(routingTable.table) && p !in GlobalParticipantIds(discoveryEntries - unvisited) ==>
                    routingTable.table[p] == old(routingTable.table)[p]
        invariant forall p :: p in GlobalParticipantIds(discoveryEntries - unvisited) ==>
                    exists e :: e in discoveryEntries && e.GlobalEntry? && e.participantId == p &&
                                routingTable.table[p] == e.address
        decreases |unvisited|
      {
        var discoveryEntry :| discoveryEntry in unvisited;
        ghost var visited := discoveryEntries - unvisited;
        if discoveryEntry.GlobalEntry? {
          routingTable.Put(discoveryEntry.participantId, discoveryEntry.address);
          assert GlobalParticipantIds(visited + {discoveryEntry})
              == GlobalParticipantIds(visited) + {discoveryEntry.participantId};
        } else {
          assert GlobalParticipantIds(visited + {discoveryEntry}) == GlobalParticipantIds(visited);
        }
        unvisited := unvisited - {discoveryEntry};
        assert discoveryEntries - unvisited == visited + {discoveryEntry};
      }
    }
  }

  /** The entry removeExistingEntryForInterface would have chosen; used when an override is skipped. */
  ghost function PickRemoval(entries: set<DiscoveryEntry>, interfaceName: string): (r: Option<DiscoveryEntry>)
    ensures RemovalChoice(entries, interfaceName, r)
  {
    if exists e :: e in entries && IsGlobalFor(e, interfaceName)
    then var e :| e in entries && IsGlobalFor(e, interfaceName); Some(e)
    else None
  }

  /**
   * The constructor: load the JSON entries (failing fast on invalid JSON, before anything else
   * happens), then apply the legacy overrides, then enter the final global entries into the
   * routing table.
   */
  method Provision(json: string, parsed: ParsedJson, localChannelId: string, now: int,
                   routingTable: RoutingTable,
                   globalCapabilitiesEntry: Option<DiscoveryEntry>, domainAccessControllerEntry: Option<DiscoveryEntry>)
    returns (result: Result<StaticCapabilitiesProvisioning, ProvisioningError>,
             ghost removedGcd: Option<DiscoveryEntry>, ghost removedGdac: Option<DiscoveryEntry>)
    modifies routingTable
    ensures parsed.Unparsable? ==> result == Err(InvalidJson(json)) && routingTable.table == old(routingTable.table)
    ensures parsed.NullList? ==> result == Err(NullEntryList) && routingTable.table == old(routingTable.table)
    ensures parsed.EntryList? ==> result.Ok? && fresh(result.value)
    ensures parsed.EntryList? ==>
              var loaded := ProvisionedSet(parsed.entries, now, localChannelId);
              var overridden := Replaced(loaded, globalCapabilitiesEntry, removedGcd);
              && RemovalChoice(loaded, GlobalCapabilitiesDirectoryInterface, removedGcd)
              && RemovalChoice(overridden, GlobalDomainAccessControllerInterface, removedGdac)
              && result.value.discoveryEntries == Replaced(overridden, domainAccessControllerEntry, removedGdac)
              && loaded - result.value.discoveryEntries <= RemovedSet(removedGcd) + RemovedSet(removedGdac)
    ensures parsed.EntryList? && globalCapabilitiesEntry.None? && domainAccessControllerEntry.None? ==>
              result.value.discoveryEntries == ProvisionedSet(parsed.entries, now, localChannelId)
    ensures parsed.EntryList? ==>
              var entries := result.value.discoveryEntries;
              && ((globalCapabilitiesEntry.Some? &&
                   !IsGlobalFor(globalCapabilitiesEntry.value, GlobalDomainAccessControllerInterface)) ==>
                    globalCapabilitiesEntry.value in entries)
              && (domainAccessControllerEntry.Some? ==> domainAccessControllerEntry.value in entries)
              && entries <= ProvisionedSet(parsed.entries, now, localChannelId)
                              + RemovedSet(globalCapabilitiesEntry) + RemovedSet(domainAccessControllerEntry)
              && (forall e :: (e in ProvisionedSet(parsed.entries, now, localChannelId) &&
                               !IsGlobalFor(e, GlobalCapabilitiesDirectoryInterface) &&
                               !IsGlobalFor(e, GlobalDomainAccessControllerInterface)) ==> e in entries)
              && routingTable.table.Keys == old(routingTable.table).Keys + GlobalParticipantIds(entries)
              && (forall p :: p in old(routingTable.table) && p !in GlobalParticipantIds(entries) ==>
                    routingTable.table[p] == old(routingTable.table)[p])
              && (forall p :: p in GlobalParticipantIds(entries) ==>
                    exists e :: e in entries && e.GlobalEntry? && e.participantId == p && routingTable.table[p] == e.address)
  {
    removedGcd, removedGdac := None, None;
    var provisioning := new StaticCapabilitiesProvisioning.Empty();
    var error := provisioning.AddEntriesFromJson(json, parsed, now, localChannelId);
    if error.Some? {
      return Err(error.value), removedGcd, removedGdac;
    }
    ghost var loaded := provisioning.discoveryEntries;
    assert loaded == ProvisionedSet(parsed.entries, now, localChannelId);
    removedGcd, removedGdac :=
      provisioning.OverrideEntriesFromLegacySettings(globalCapabilitiesEntry, domainAccessControllerEntry);
    LegacyOverrides(loaded, globalCapabilitiesEntry, domainAccessControllerEntry, removedGcd, removedGdac);
    provisioning.AddAddressesToRoutingTable(routingTable);
    return Ok(provisioning), removedGcd, removedGdac;
  }
}
