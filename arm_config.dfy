/**
  The dashboard's arm configuration: the leader and follower arm records, the
  field updates and reset, the validation of a configuration, and the rule
  that decides whether a serial port is a USB device.
 */
module ArmConfig {
  import opened Text

  /** `RobotConfig`. */
  datatype RobotConfig = RobotConfig(port: string, robotType: string, robotId: string, connected: bool)

  /** `ArmConfiguration`. */
  datatype ArmConfiguration = ArmConfiguration(leader: RobotConfig, follower: RobotConfig)

  /** The configuration used when there is no file, or it cannot be read. */
  const Empty := RobotConfig("", "", "", false)
  const Default := ArmConfiguration(Empty, Empty)

  /** A field update that only applies what was passed (`None` leaves the field as it is). */
  function Updated(r: RobotConfig, port: Option<string>, robotType: Option<string>, robotId: Option<string>): (u: RobotConfig)
    ensures u.port == (if port.Some? then port.value else r.port)
    ensures u.robotType == (if robotType.Some? then robotType.value else r.robotType)
    ensures u.robotId == (if robotId.Some? then robotId.value else r.robotId)
    ensures u.connected == r.connected
  {
    RobotConfig(
      if port.Some? then port.value else r.port,
      if robotType.Some? then robotType.value else r.robotType,
      if robotId.Some? then robotId.value else r.robotId,
      r.connected)
  }

  /** Updating with nothing passed changes nothing, and a second update with the same values changes nothing more. */
  lemma UpdatedIdempotent(r: RobotConfig, port: Option<string>, robotType: Option<string>, robotId: Option<string>)
    ensures Updated(r, None, None, None) == r
    ensures Updated(Updated(r, port, robotType, robotId), port, robotType, robotId) == Updated(r, port, robotType, robotId)
  {
  }

  // ----- validation -----

  /** The list of configuration errors, in the order `validate_config` appends them. */
  function Errors(c: ArmConfiguration): seq<string> {
    (if c.leader.port == "" then ["Leader arm port not configured"] else [])
    + (if c.leader.robotType == "" then ["Leader arm robot type not configured"] else [])
    + (if c.leader.robotId == "" then ["Leader arm robot ID not configured"] else [])
    + (if c.follower.port == "" then ["Follower arm port not configured"] else [])
    + (if c.follower.robotType == "" then ["Follower arm robot type not configured"] else [])
    + (if c.follower.robotId == "" then ["Follower arm robot ID not configured"] else [])
    + (if c.leader.port != "" && c.follower.port != "" && c.leader.port == c.follower.port
       then ["Leader and follower arms cannot use the same port"] else [])
    + (if c.leader.robotId != "" && c.follower.robotId != "" && c.leader.robotId == c.follower.robotId
       then ["Leader and follower arms cannot have the same robot ID"] else [])
  }

  /** The warnings for configured ports missing from the listed ones. */
  function Warnings(c: ArmConfiguration, available: seq<string>): (w: seq<string>)
    ensures |w| <= 2
    ensures w == [] <==> (c.leader.port == "" || c.leader.port in available) && (c.follower.port == "" || c.follower.port in available)
  {
    (if c.leader.port != "" && c.leader.port !in available
     then ["Leader arm port " + c.leader.port + " not found in available ports"] else [])
    + (if c.follower.port != "" && c.follower.port !in available
       then ["Follower arm port " + c.follower.port + " not found in available ports"] else [])
  }

  datatype Validation = Validation(valid: bool, errors: seq<string>, warnings: seq<string>, config: ArmConfiguration)

  /** `validate_config`, given the paths `list_ports` found. */
  function Validate(c: ArmConfiguration, available: seq<string>): (v: Validation)
    ensures v.valid <==> v.errors == []
    ensures v.config == c
  {
    var errors := Errors(c);
    Validation(|errors| == 0, errors, Warnings(c, available), c)
  }

  /**
    A configuration is valid exactly when all six fields are filled in and the
    two arms differ in port and in robot id; which ports are available never
    matters.
   */
  lemma ValidIff(c: ArmConfiguration, available: seq<string>)
    ensures Validate(c, available).valid <==>
      && c.leader.port != "" && c.leader.robotType != "" && c.leader.robotId != ""
      && c.follower.port != "" && c.follower.robotType != "" && c.follower.robotId != ""
      && c.leader.port != c.follower.port && c.leader.robotId != c.follower.robotId
    ensures forall other: seq<string> :: Validate(c, other).valid == Validate(c, available).valid
  {
  }

  /** The default configuration has the six "not configured" errors and nothing else. */
  lemma DefaultInvalid()
    ensures |Errors(Default)| == 6 && !Validate(Default, []).valid
  {
  }

  // ----- USB classification -----

  /** A serial port as `list_ports` describes it; an unreadable device is `None`. */
  datatype Port = Port(device: Option<string>, manufacturer: Option<string>, product: Option<string>)

  /** `any(p in s for p in pats)`. */
  predicate AnyIn(s: string, pats: seq<string>)
    decreases |pats|
  {
    pats != [] && (Contains(s, pats[0]) || AnyIn(s, pats[1..]))
  }

  lemma {:induction false} AnyInSpec(s: string, pats: seq<string>)
    ensures AnyIn(s, pats) <==> exists k :: 0 <= k < |pats| && Contains(s, pats[k])
    decreases |pats|
  {
    if pats != [] {
      AnyInSpec(s, pats[1..]);
      assert forall k :: 1 <= k < |pats| ==> pats[k] == pats[1..][k - 1];
      if exists k :: 0 <= k < |pats| && Contains(s, pats[k]) {
        var k :| 0 <= k < |pats| && Contains(s, pats[k]);
        if k > 0 {
          assert Contains(s, pats[1..][k - 1]);
        }
      }
    }
  }

  const LinuxPrefixes: seq<string> := ["/dev/ttyUSB", "/dev/ttyACM"]
  const MacPrefixes: seq<string> := ["/dev/tty.usbserial", "/dev/tty.usbmodem"]
  const DevicePatterns: seq<string> := ["usbserial", "usbmodem", "usb-serial", "usb-modem"]
  const ManufacturerKeywords: seq<string> := ["usb", "ftdi", "arduino", "ch340", "cp210"]
  const ProductKeywords: seq<string> := ["usb", "usb-serial", "usb-modem", "arduino"]

  /** A present, non-empty text whose lowered form holds one of `keywords`. */
  predicate Mentions(field: Option<string>, keywords: seq<string>) {
    field.Some? && field.value != [] && AnyIn(Lower(field.value), keywords)
  }

  /** `_is_usb_device`: a device that cannot be read is counted as USB. */
  function IsUsbDevice(p: Port): (usb: bool)
    ensures p.device.None? ==> usb
    ensures p.device.Some? && (StartsWith(p.device.value, LinuxPrefixes[0]) || StartsWith(p.device.value, LinuxPrefixes[1])) ==> usb
    ensures Mentions(p.manufacturer, ManufacturerKeywords) || Mentions(p.product, ProductKeywords) ==> usb
  {
    if p.device.None? then true
    else
      var d := p.device.value;
      if StartsWith(d, LinuxPrefixes[0]) || StartsWith(d, LinuxPrefixes[1]) then true
      else if StartsWith(d, MacPrefixes[0]) || StartsWith(d, MacPrefixes[1]) then true
      else if AnyIn(Lower(d), DevicePatterns) then true
      else Mentions(p.manufacturer, ManufacturerKeywords) || Mentions(p.product, ProductKeywords)
  }

  /**
    A port is not USB exactly when its device is readable, starts with none of
    the Linux prefixes, holds none of the device patterns in any case, and
    neither its manufacturer nor its product mentions a keyword. The macOS
    prefix test adds nothing: both prefixes hold a device pattern.
   */
  lemma NotUsbIff(p: Port)
    ensures !IsUsbDevice(p) <==>
      && p.device.Some?
      && !StartsWith(p.device.value, LinuxPrefixes[0]) && !StartsWith(p.device.value, LinuxPrefixes[1])
      && !AnyIn(Lower(p.device.value), DevicePatterns)
      && !Mentions(p.manufacturer, ManufacturerKeywords) && !Mentions(p.product, ProductKeywords)
  {
    if p.device.Some? {
      var d := p.device.value;
      if StartsWith(d, MacPrefixes[0]) || StartsWith(d, MacPrefixes[1]) {
        var k := if StartsWith(d, MacPrefixes[0]) then 0 else 1;
        MacPrefixHoldsPattern(d, k);
      }
    }
  }

  /** A device path under a macOS prefix holds the matching pattern in its lowered form. */
  lemma MacPrefixHoldsPattern(d: string, k: int)
    requires 0 <= k < 2 && StartsWith(d, MacPrefixes[k])
    ensures AnyIn(Lower(d), DevicePatterns)
  {
    var pat := DevicePatterns[k];
    var n := 9 + |pat|;
    assert d[9..n] == pat && forall i :: 0 <= i < |pat| ==> 'a' <= pat[i] <= 'z' by {
      assert MacPrefixes[k] == "/dev/tty." + pat;
      assert MacPrefixes[k][9..] == pat;
    }
    LowerKeepsLowercase(d, 9, n);
    assert OccursAt(Lower(d), pat, 9);
    AnyInSpec(Lower(d), DevicePatterns);
  }

  /** Lowering leaves a slice of lower-case letters as it is. */
  lemma LowerKeepsLowercase(d: string, i: int, j: int)
    requires 0 <= i <= j <= |d| && forall m :: i <= m < j ==> 'a' <= d[m] <= 'z'
    ensures Lower(d)[i..j] == d[i..j]
  {
  }

  /** A text without the first character of `sub` does not contain it. */
  lemma LacksFirstChar(s: string, sub: string)
    requires sub != [] && sub[0] !in s
    ensures !Contains(s, sub)
  {
    forall i | 0 <= i <= |s| - |sub|
      ensures !OccursAt(s, sub, i)
    {
      assert s[i] in s;
      assert s[i..i + |sub|][0] == s[i];
    }
  }

  /** The serial port of a desktop machine, with nothing else known, is not USB. */
  lemma SerialPortNotUsb()
    ensures !IsUsbDevice(Port(Some("/dev/ttyS0"), None, None))
  {
    var d := "/dev/ttyS0";
    assert !StartsWith(d, LinuxPrefixes[0]) && !StartsWith(d, LinuxPrefixes[1]) by {
      assert d[8] != LinuxPrefixes[0][8] && d[8] != LinuxPrefixes[1][8];
    }
    assert !StartsWith(d, MacPrefixes[0]) && !StartsWith(d, MacPrefixes[1]) by {
      assert |d| < |MacPrefixes[0]| && |d| < |MacPrefixes[1]|;
    }
    assert !AnyIn(Lower(d), DevicePatterns) by {
      assert forall i :: 0 <= i < |d| ==> d[i] != 'u' && d[i] != 'U';
      NoPatternWithoutU(Lower(d));
    }
    NotUsbWhen(Port(Some(d), None, None));
  }

  lemma NotUsbWhen(p: Port)
    requires p.device.Some? && p.manufacturer.None? && p.product.None?
    requires !StartsWith(p.device.value, LinuxPrefixes[0]) && !StartsWith(p.device.value, LinuxPrefixes[1])
    requires !StartsWith(p.device.value, MacPrefixes[0]) && !StartsWith(p.device.value, MacPrefixes[1])
    requires !AnyIn(Lower(p.device.value), DevicePatterns)
    ensures !IsUsbDevice(p)
  {
  }

  /** A text without the letter `u` holds none of the device patterns. */
  lemma NoPatternWithoutU(l: string)
    requires 'u' !in l
    ensures !AnyIn(l, DevicePatterns)
  {
    forall k | 0 <= k < 4
      ensures !Contains(l, DevicePatterns[k])
    {
      assert DevicePatterns[k][0] == 'u';
      LacksFirstChar(l, DevicePatterns[k]);
    }
    AnyInSpec(l, DevicePatterns);
  }

  /** `/dev/ttyUSB0` is a USB device. */
  lemma UsbPortIsUsb()
    ensures IsUsbDevice(Port(Some("/dev/ttyUSB0"), None, None))
  {
    assert "/dev/ttyUSB0"[..11] == LinuxPrefixes[0];
  }

  // ----- the service -----

  class ArmConfigurationService {
    var config: ArmConfiguration

    /** `load_config` at construction: the file's configuration, or the default when there is none or it is unreadable. */
    constructor(loaded: Option<ArmConfiguration>)
      ensures config == (if loaded.Some? then loaded.value else Default)
    {
      config := if loaded.Some? then loaded.value else Default;
    }

    /**
      `update_leader_config`: the fields passed are set, the others and the
      follower are untouched; the result is whether saving succeeded.
     */
    method UpdateLeader(port: Option<string>, robotType: Option<string>, robotId: Option<string>, saveOk: bool)
      returns (ok: bool)
      modifies this
      ensures config.leader == Updated(old(config.leader), port, robotType, robotId)
      ensures config.follower == old(config.follower)
      ensures ok == saveOk
    {
      config := config.(leader := Updated(config.leader, port, robotType, robotId));
      ok := saveOk;
    }

    /** `update_follower_config`, symmetric to the leader update. */
    method UpdateFollower(port: Option<string>, robotType: Option<string>, robotId: Option<string>, saveOk: bool)
      returns (ok: bool)
      modifies this
      ensures config.follower == Updated(old(config.follower), port, robotType, robotId)
      ensures config.leader == old(config.leader)
      ensures ok == saveOk
    {
      config := config.(follower := Updated(config.follower, port, robotType, robotId));
      ok := saveOk;
    }

    /** `validate_config` on the current configuration. */
    method ValidateConfig(available: seq<string>) returns (v: Validation)
      ensures v == Validate(config, available)
    {
      v := Validate(config, available);
    }

    /** `reset_config`: every field empty again (and not connected). */
    method Reset(saveOk: bool) returns (ok: bool)
      modifies this
      ensures config == Default && ok == saveOk
    {
      config := Default;
      ok := saveOk;
    }
  }

  /** After a reset the configuration is invalid, whatever it was. */
  method ResetInvalidates(s: ArmConfigurationService, available: seq<string>) returns (v: Validation)
    modifies s
    ensures !v.valid && |v.errors| == 6
  {
    var _ := s.Reset(true);
    v := s.ValidateConfig(available);
    DefaultInvalid();
  }
}
