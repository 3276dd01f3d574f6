/**
 * HardwareFingerprint (shiplock_license.py): the assembly of the machine-id component
 * list, its '|'-join and hash, and the formatting of a 48-bit node number as a MAC address.
 * The probes themselves (files, subprocesses, sockets, netifaces) are inputs.
 */
module Fingerprint {
  import opened Wrappers
  import opened Strings

  datatype Os = Linux | Windows | Darwin | OtherOs

  /**
   * What the system probes of `get_machine_id` and `_get_mac_address` observed.
   * `None` stands for a probe that raised or found nothing.
   */
  datatype Probe = Probe(
    system: Os,                    // platform.system()
    hostname: Option<string>,      // socket.gethostname()
    machineIdFile: Option<string>, // raw content of /etc/machine-id
    cpuSerialLine: Option<string>, // first /proc/cpuinfo line holding 'Serial', stripped
    registryGuid: Option<string>,  // MachineGuid parsed from `reg query` (Windows)
    hardwareUuid: Option<string>,  // Hardware UUID parsed from system_profiler (macOS)
    interfaceMac: Option<string>,  // address chosen through netifaces, if installed
    node: nat,                     // uuid.getnode()
    getmacMac: Option<string>,     // address parsed from `getmac /NH` (Windows)
    platformNode: string,          // platform.node()
    platformMachine: string,       // platform.machine()
    platformProcessor: string)     // platform.processor()

  const ZeroMac: string := "00:00:00:00:00:00"
  const NodeLimit: nat := 0x1_0000_0000_0000

  /** 256^k for the six octet positions, i.e. the divisor realising `node >> 8k`. */
  function OctetScale(k: nat): nat
    requires k < 6
  {
    [1, 0x100, 0x1_0000, 0x100_0000, 0x1_0000_0000, 0x100_0000_0000][k]
  }

  /** `(node >> 8k) & 0xff`. */
  function Octet(node: nat, k: nat): nat
    requires k < 6
  {
    (node / OctetScale(k)) % 256
  }

  function HexDigit(d: nat): (c: char)
    requires d < 16
    ensures '0' <= c <= '9' || 'a' <= c <= 'f'
    ensures HexDigitValue(c) == d
  {
    if d < 10 then ('0' as int + d) as char else ('a' as int + d - 10) as char
  }

  function HexDigitValue(c: char): int {
    if '0' <= c <= '9' then c as int - '0' as int
    else if 'a' <= c <= 'f' then c as int - 'a' as int + 10
    else -1
  }

  /** `'{:02x}'.format(b)` for a byte value. */
  function HexByte(b: nat): string
    requires b < 256
  {
    [HexDigit(b / 16), HexDigit(b % 16)]
  }

  function Reverse<T>(xs: seq<T>): (r: seq<T>)
    ensures |r| == |xs| && forall i :: 0 <= i < |xs| ==> r[i] == xs[|xs| - 1 - i]
  {
    seq(|xs|, i requires 0 <= i < |xs| => xs[|xs| - 1 - i])
  }

  /**
   * The MAC text built from `uuid.getnode()`:
   * `':'.join(['{:02x}'.format((node >> i) & 0xff) for i in range(0, 48, 8)][::-1])`.
   */
  function FormatMac(node: nat): string {
    Join(Reverse(seq(6, k requires 0 <= k < 6 => HexByte(Octet(node, k)))), ':')
  }

  /** The node fallback of `_get_mac_address`: only a nonzero node whose MAC is not all zeros. */
  function NodeMac(node: nat): (r: Option<string>)
    ensures r.Some? ==> r.value == FormatMac(node) && r.value != ZeroMac
  {
    if node != 0 && FormatMac(node) != ZeroMac then Some(FormatMac(node)) else None
  }

  /** `_get_mac_address`: netifaces first, then the node, then `getmac` on Windows. */
  function MacAddress(probe: Probe): Option<string> {
    if probe.interfaceMac.Some? then probe.interfaceMac
    else if NodeMac(probe.node).Some? then NodeMac(probe.node)
    else if probe.system == Windows then probe.getmacMac
    else None
  }

  /** Reads a MAC text back into the 48-bit number it encodes (the inverse of `FormatMac`). */
  function ParseMac(s: string): int
    requires |s| == 17
  {
    var v := (k: nat) requires k < 6 =>
      16 * HexDigitValue(s[3 * k]) + HexDigitValue(s[3 * k + 1]);
    v(0) * 0x100_0000_0000 + v(1) * 0x1_0000_0000 + v(2) * 0x100_0000
    + v(3) * 0x1_0000 + v(4) * 0x100 + v(5)
  }

  lemma {:induction false} JoinOfPairs(xs: seq<string>, sep: char)
    requires |xs| >= 1 && forall i :: 0 <= i < |xs| ==> |xs[i]| == 2
    ensures |Join(xs, sep)| == 3 * |xs| - 1
    ensures forall k :: 0 <= k < |xs| ==> Join(xs, sep)[3 * k] == xs[k][0] && Join(xs, sep)[3 * k + 1] == xs[k][1]
    ensures forall k :: 0 <= k < |xs| - 1 ==> Join(xs, sep)[3 * k + 2] == sep
  {
    if |xs| > 1 {
      JoinOfPairs(xs[1..], sep);
      var j := Join(xs, sep);
      assert j == xs[0] + [sep] + Join(xs[1..], sep);
      forall k | 1 <= k < |xs|
        ensures j[3 * k] == xs[k][0] && j[3 * k + 1] == xs[k][1]
      {
        assert j[3 * k] == Join(xs[1..], sep)[3 * (k - 1)];
        assert j[3 * k + 1] == Join(xs[1..], sep)[3 * (k - 1) + 1];
      }
      forall k | 1 <= k < |xs| - 1
        ensures j[3 * k + 2] == sep
      {
        assert j[3 * k + 2] == Join(xs[1..], sep)[3 * (k - 1) + 2];
      }
    }
  }

  /** The six two-digit octet texts, most significant first. */
  lemma MacParts(node: nat) returns (parts: seq<string>)
    ensures FormatMac(node) == Join(parts, ':')
    ensures |parts| == 6
    ensures forall k :: 0 <= k < 6 ==> parts[k] == HexByte(Octet(node, 5 - k))
  {
    parts := Reverse(seq(6, k requires 0 <= k < 6 => HexByte(Octet(node, k))));
  }

  /**
   * The layout of a formatted MAC: 17 characters, six lowercase two-digit hex octets,
   * most significant first, separated by ':'.
   */
  lemma FormatMacShape(node: nat)
    ensures |FormatMac(node)| == 17
    ensures forall k :: 0 <= k < 5 ==> FormatMac(node)[3 * k + 2] == ':'
    ensures forall k :: 0 <= k < 6 ==>
      FormatMac(node)[3 * k] == HexDigit(Octet(node, 5 - k) / 16) &&
      FormatMac(node)[3 * k + 1] == HexDigit(Octet(node, 5 - k) % 16)
    ensures forall i :: 0 <= i < 17 && i % 3 != 2 ==>
      ('0' <= FormatMac(node)[i] <= '9' || 'a' <= FormatMac(node)[i] <= 'f')
  {
    var parts := MacParts(node);
    JoinOfPairs(parts, ':');
    var s := FormatMac(node);
    forall k | 0 <= k < 6
      ensures s[3 * k] == HexDigit(Octet(node, 5 - k) / 16)
      ensures s[3 * k + 1] == HexDigit(Octet(node, 5 - k) % 16)
    {
      assert parts[k] == HexByte(Octet(node, 5 - k));
    }
    forall i | 0 <= i < 17 && i % 3 != 2
      ensures '0' <= s[i] <= '9' || 'a' <= s[i] <= 'f'
    {
      var k := i / 3;
      assert i == 3 * k || i == 3 * k + 1;
    }
  }

  lemma OctetsRecompose(node: nat)
    ensures Octet(node, 5) * 0x100_0000_0000 + Octet(node, 4) * 0x1_0000_0000
      + Octet(node, 3) * 0x100_0000 + Octet(node, 2) * 0x1_0000
      + Octet(node, 1) * 0x100 + Octet(node, 0) == node % NodeLimit
  {
    assert node % 1 == 0;
    OctetStep(node, 0);
    OctetStep(node, 1);
    OctetStep(node, 2);
    OctetStep(node, 3);
    OctetStep(node, 4);
    OctetStep(node, 5);
  }

  /** The low 8(k+1) bits are octet k above the low 8k bits. */
  lemma OctetStep(node: nat, k: nat)
    requires k < 6
    ensures node % (OctetScale(k) * 256) == Octet(node, k) * OctetScale(k) + node % OctetScale(k)
  {
    var m := OctetScale(k);
    var q, r := node / m, node % m;
    var hi, lo := q / 256, q % 256;
    assert node == m * q + r;
    assert q == 256 * hi + lo;
    assert m * q == (m * 256) * hi + m * lo;
    assert m * lo <= m * 255;
    ModUnique(node, m * 256, hi, m * lo + r);
  }

  lemma ModUnique(n: nat, d: nat, quot: nat, rem: nat)
    requires 0 <= rem < d && n == d * quot + rem
    ensures n % d == rem
  {
    var q, r := n / d, n % d;
    assert d * q + r == d * quot + rem;
    if q < quot {
      MulAtLeast(d, quot - q);
      assert false;
    } else if q > quot {
      MulAtLeast(d, q - quot);
      assert false;
    }
  }

  lemma MulAtLeast(d: nat, k: nat)
    requires k >= 1
    ensures d * k >= d
  {
    assert d * k == d + d * (k - 1);
  }

  /** Reading a formatted MAC back yields the low 48 bits of the node: formatting loses nothing else. */
  lemma {:induction false} ParseFormatMac(node: nat)
    ensures |FormatMac(node)| == 17 && ParseMac(FormatMac(node)) == node % NodeLimit
  {
    FormatMacShape(node);
    var s := FormatMac(node);
    forall k | 0 <= k < 6
      ensures 16 * HexDigitValue(s[3 * k]) + HexDigitValue(s[3 * k + 1]) == Octet(node, 5 - k)
    {
      var o := Octet(node, 5 - k);
      assert s[3 * k] == HexDigit(o / 16) && s[3 * k + 1] == HexDigit(o % 16);
      assert 16 * (o / 16) + o % 16 == o;
    }
    OctetsRecompose(node);
  }

  /** A nonzero 48-bit node always gives a MAC, and never the all-zero one. */
  lemma {:induction false} NodeMacOfValidNode(node: nat)
    requires 0 < node < NodeLimit
    ensures NodeMac(node) == Some(FormatMac(node))
  {
    ParseFormatMac(node);
    assert ParseMac(ZeroMac) == 0;
  }

  function OptionList(o: Option<string>): seq<string> {
    if o.Some? then [o.value] else []
  }

  /** A probe result that is appended only when it is truthy (`if guid:`, `if mac:`). */
  function NonEmptyList(o: Option<string>): seq<string> {
    if o.Some? && o.value != "" then [o.value] else []
  }

  /** The platform-specific slots: machine-id and CPU serial on Linux, the GUID or UUID elsewhere. */
  function PlatformComponents(probe: Probe): seq<string> {
    match probe.system
    case Linux =>
      (if probe.machineIdFile.Some? then [Strip(probe.machineIdFile.value)] else [])
      + OptionList(probe.cpuSerialLine)
    case Windows => NonEmptyList(probe.registryGuid)
    case Darwin => NonEmptyList(probe.hardwareUuid)
    case OtherOs => []
  }

  /** What `get_machine_id` has collected before its `len(components) < 2` top-up. */
  function PrimaryComponents(probe: Probe): seq<string> {
    OptionList(probe.hostname) + PlatformComponents(probe) + NonEmptyList(MacAddress(probe))
  }

  /** The three-item list used when nothing at all was collected. */
  function FallbackComponents(probe: Probe): seq<string> {
    [probe.platformNode, probe.platformMachine,
     if probe.platformProcessor != "" then Take(probe.platformProcessor, 50) else "unknown"]
  }

  /** The component list `get_machine_id` hashes. */
  function Components(probe: Probe): (cs: seq<string>)
    ensures |cs| >= 1
  {
    var primary := PrimaryComponents(probe);
    var topped := if |primary| < 2 && probe.node != 0 then primary + [Decimal(probe.node)] else primary;
    if topped == [] then FallbackComponents(probe) else topped
  }

  /** The machine id: sha256 of the '|'-joined components. */
  function MachineFingerprint(sha256Hex: string -> string, components: seq<string>): string {
    sha256Hex(Join(components, '|'))
  }

  /** `HardwareFingerprint.get_machine_id`, appending component by component. */
  method GetMachineId(probe: Probe, sha256Hex: string -> string) returns (machineId: string)
    ensures machineId == MachineFingerprint(sha256Hex, Components(probe))
  {
    var components: seq<string> := [];
    if probe.hostname.Some? {
      components := components + [probe.hostname.value];
    }
    assert components == OptionList(probe.hostname);
    ghost var collected := components;
    if probe.system == Linux {
      if probe.machineIdFile.Some? {
        components := components + [Strip(probe.machineIdFile.value)];
      }
      if probe.cpuSerialLine.Some? {
        components := components + [probe.cpuSerialLine.value];
      }
    } else if probe.system == Windows {
      if probe.registryGuid.Some? && probe.registryGuid.value != "" {
        components := components + [probe.registryGuid.value];
      }
    } else if probe.system == Darwin {
      if probe.hardwareUuid.Some? && probe.hardwareUuid.value != "" {
        components := components + [probe.hardwareUuid.value];
      }
    }
    assert components == collected + PlatformComponents(probe);
    collected := components;
    var mac := MacAddress(probe);
    if mac.Some? && mac.value != "" {
      components := components + [mac.value];
    }
    assert components == collected + NonEmptyList(mac);
    if |components| < 2 {
      var nodeId := Decimal(probe.node);
      DecimalZero(probe.node);
      if nodeId != "0" {
        components := components + [nodeId];
      }
    }
    if components == [] {
      components := FallbackComponents(probe);
    }
    machineId := sha256Hex(Join(components, '|'));
  }

  /**
   * The collected components lead the list and at most one is added after them; the top-up
   * with `str(getnode())` happens exactly when fewer than two were collected and the node is
   * nonzero; the three-item fallback replaces the list only when nothing was collected and the
   * node is zero; a collected hostname is always the first component.
   */
  lemma ComponentsRules(probe: Probe)
    ensures var primary := PrimaryComponents(probe);
      && (|primary| >= 2 ==> Components(probe) == primary)
      && (|primary| < 2 && probe.node != 0 ==>
            Components(probe) == primary + [Decimal(probe.node)] && Decimal(probe.node) != "0")
      && ((primary != [] || probe.node != 0) ==>
            primary <= Components(probe) && |Components(probe)| <= |primary| + 1)
      && (primary == [] && probe.node == 0 ==> Components(probe) == FallbackComponents(probe))
      && (probe.hostname.Some? ==> Components(probe)[0] == probe.hostname.value)
  {
    DecimalZero(probe.node);
  }

  /** The machine-id component list of the embedded verification script. */
  function ScriptComponents(probe: Probe): seq<string> {
    OptionList(probe.hostname)
    + (if probe.machineIdFile.Some? then [Strip(probe.machineIdFile.value)] else [])
    + [FormatMac(probe.node)]
  }

  /**
   * On a Linux host with no CPU serial line and no netifaces address, the issuer and the
   * embedded script collect the same components, hence the same machine id.
   */
  lemma ScriptAgreesOnPlainLinux(probe: Probe, sha256Hex: string -> string)
    requires probe.system == Linux && probe.cpuSerialLine.None? && probe.interfaceMac.None?
    requires probe.hostname.Some? && 0 < probe.node < NodeLimit
    ensures Components(probe) == ScriptComponents(probe)
    ensures MachineFingerprint(sha256Hex, Components(probe)) == MachineFingerprint(sha256Hex, ScriptComponents(probe))
  {
    NodeMacOfValidNode(probe.node);
    FormatMacShape(probe.node);
  }

  /**
   * With a CPU serial line (Linux), the issuer hashes one component more than the embedded
   * script does, so the two hashed texts differ whenever no component contains '|'.
   */
  lemma ScriptDisagreesWithCpuSerial(probe: Probe)
    requires probe.system == Linux && probe.cpuSerialLine.Some? && probe.interfaceMac.None?
    requires probe.hostname.Some? && 0 < probe.node < NodeLimit
    requires '|' !in probe.hostname.value && '|' !in probe.cpuSerialLine.value
    requires probe.machineIdFile.Some? ==> '|' !in Strip(probe.machineIdFile.value)
    ensures Join(Components(probe), '|') != Join(ScriptComponents(probe), '|')
  {
    NodeMacOfValidNode(probe.node);
    var mac := FormatMac(probe.node);
    MacHasNoBar(probe.node);
    var mid := if probe.machineIdFile.Some? then [Strip(probe.machineIdFile.value)] else [];
    var front := [probe.hostname.value] + mid;
    assert forall i :: 0 <= i < |front| ==> '|' !in front[i];
    assert ScriptComponents(probe) == front + [mac];
    assert PrimaryComponents(probe) == [probe.hostname.value] + (mid + [probe.cpuSerialLine.value]) + [mac];
    assert Components(probe) == front + [probe.cpuSerialLine.value] + [mac];
    ExtraComponentChangesJoin(front, probe.cpuSerialLine.value, mac);
  }

  /** Joining one component more (none containing '|') never gives the same text. */
  lemma ExtraComponentChangesJoin(front: seq<string>, extra: string, last: string)
    requires forall i :: 0 <= i < |front| ==> '|' !in front[i]
    requires '|' !in extra && '|' !in last
    ensures Join(front + [extra] + [last], '|') != Join(front + [last], '|')
  {
    var cs, ss := front + [extra] + [last], front + [last];
    assert forall i :: 0 <= i < |cs| ==> '|' !in cs[i] by {
      forall i | 0 <= i < |cs| ensures '|' !in cs[i] {
        if i < |front| { assert cs[i] == front[i]; }
      }
    }
    assert forall i :: 0 <= i < |ss| ==> '|' !in ss[i] by {
      forall i | 0 <= i < |ss| ensures '|' !in ss[i] {
        if i < |front| { assert ss[i] == front[i]; }
      }
    }
    JoinOfLongerDiffers(cs, ss);
  }

  lemma JoinOfLongerDiffers(cs: seq<string>, ss: seq<string>)
    requires |cs| > |ss| >= 1
    requires forall i :: 0 <= i < |cs| ==> '|' !in cs[i]
    requires forall i :: 0 <= i < |ss| ==> '|' !in ss[i]
    ensures Join(cs, '|') != Join(ss, '|')
  {
    if Join(cs, '|') == Join(ss, '|') {
      JoinInjective(cs, ss, '|');
    }
  }

  lemma MacHasNoBar(node: nat)
    ensures '|' !in FormatMac(node)
  {
    FormatMacShape(node);
    var mac := FormatMac(node);
    forall i | 0 <= i < |mac| ensures mac[i] != '|' {
      if i % 3 == 2 {
        assert mac[3 * (i / 3) + 2] == ':';
      }
    }
  }
}
