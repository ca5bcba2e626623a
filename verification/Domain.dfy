/** Domain values of the inventory: src/domain/enums.py, values.py, resource.py, identity.py. */
module Domain {
  import opened Common

  // ---- Connection identifiers ------------------------------------------------------------

  predicate IsHexDigit(c: char) {
    '0' <= c <= '9' || 'a' <= c <= 'f'
  }

  /** The text Python prints for a UUID: 32 hexadecimal digits in groups of 8-4-4-4-12. */
  predicate IsCanonicalUuid(s: string) {
    && |s| == 36
    && (forall i | 0 <= i < 36 :: if i == 8 || i == 13 || i == 18 || i == 23 then s[i] == '-' else IsHexDigit(s[i]))
  }

  /** Connection identifiers, kept as the text that goes into an identity key. */
  type ConnectionId = s: string | IsCanonicalUuid(s) witness "00000000-0000-0000-0000-000000000000"

  /** Resource identifiers are only drawn, compared and ordered: the 128-bit value of the UUID. */
  type ResourceId = nat

  // ---- Enumerations ----------------------------------------------------------------------

  datatype GuestAvailability = Available | ToolsNotInstalled | ToolsNotRunning | AvailabilityUnknown
  datatype OsSource = GuestTools | VmConfig
  datatype PowerState = PoweredOn | PoweredOff | Suspended | PowerUnknown
  datatype LinkState = Connected | Disconnected | Inaccessible | Orphaned | LinkUnknown
  datatype Lifecycle = Active | Missing | Retired | ConnectionRemoved

  // ---- Observed virtual machines ---------------------------------------------------------

  datatype GuestInfo = GuestInfo(
    availability: GuestAvailability,
    osName: Option<string>,
    osVersion: Option<string>,
    osSource: Option<OsSource>,
    hostname: Option<string>,
    ipv4: seq<string>,
    ipv6: seq<string>,
    toolVersion: Option<string>,
    observedAt: Option<Instant>)
  {
    predicate IsCollected() {
      availability == Available
    }

    /** Keep what was known when the guest tools did not answer this time. */
    function WithFallback(previous: Option<GuestInfo>): GuestInfo {
      if IsCollected() || previous.None? then this
      else previous.value.(availability := availability)
    }
  }

  datatype VirtualMachine = VirtualMachine(
    connectionId: ConnectionId,
    nativeId: string,
    name: string,
    biosUuid: Option<string>,
    powerState: PowerState,
    connectionState: LinkState,
    totalVcpu: int,
    assignedMb: int,
    configuredOs: Option<string>,
    guest: GuestInfo,
    hostNativeId: Option<string>)

  // ---- Identity keys ---------------------------------------------------------------------

  datatype IdentityRule = Native | BiosUuid | MacAndName
  {
    function Rank(): nat {
      match this case Native => 1 case BiosUuid => 2 case MacAndName => 3
    }
  }

  datatype IdentityKey = IdentityKey(rule: IdentityRule, value: string)

  function NativeKeyText(connectionId: ConnectionId, nativeId: string): string {
    connectionId + ":" + nativeId
  }

  function BuildVmIdentityKeys(vm: VirtualMachine): seq<IdentityKey> {
    [IdentityKey(Native, NativeKeyText(vm.connectionId, vm.nativeId))]
  }

  /** Two machines share a native key text only when both halves agree, whatever ':' the native id holds. */
  lemma NativeKeyTextInjective(c1: ConnectionId, n1: string, c2: ConnectionId, n2: string)
    ensures NativeKeyText(c1, n1) == NativeKeyText(c2, n2) <==> c1 == c2 && n1 == n2
    ensures NativeKeyText(c1, n1)[..36] == c1 && NativeKeyText(c1, n1)[36] == ':' && NativeKeyText(c1, n1)[37..] == n1
  {
    if NativeKeyText(c1, n1) == NativeKeyText(c2, n2) {
      assert NativeKeyText(c1, n1)[..36] == c1 && NativeKeyText(c2, n2)[..36] == c2;
      assert NativeKeyText(c1, n1)[37..] == n1 && NativeKeyText(c2, n2)[37..] == n2;
    }
  }
}
