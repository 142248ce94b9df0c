/** app/services/connection_mode.py: the one effective connection mode of a device. */
module ConnectionMode {
  import opened Wrappers
  import opened Text

  /** Unset is the empty string of the source. */
  datatype Mode = Unset | Direct | JumpHost | Vpn

  datatype Subgroup = Subgroup(active: bool, connectionType: string)

  datatype Group = Group(id: string, connectionType: string, usesJump: bool, usesVpn: bool, jumpHost: string,
                         jumpPort: nat)

  /** `extra` is the device's JSON parameters, restricted to text values. */
  datatype Device = Device(id: string, address: string, subgroup: Option<Subgroup>, extra: map<string, string>)

  predicate Truthy(value: string) {
    Lower(Strip(value)) in {"1", "true", "on", "yes", "sim"}
  }

  function NormalizeType(value: string): Mode {
    var raw := Lower(Strip(value));
    if raw == "jump" || raw == "jump_host" then JumpHost
    else if raw == "vpn" then Vpn
    else if raw == "direct" then Direct
    else Unset
  }

  /** dict.get with the empty string for a missing key. */
  function Get(m: map<string, string>, key: string): string {
    if key in m then m[key] else ""
  }

  function DeviceOverride(device: Device): Mode {
    var sub := match device.subgroup
      case Some(g) => if g.active then NormalizeType(g.connectionType) else Unset
      case None => Unset;
    if sub != Unset then sub
    else
      var first := Get(device.extra, "connection_subgroup_type");
      var mode := NormalizeType(if first != "" then first else Get(device.extra, "subgroup_connection_type"));
      var key := "connection_subgroup_enabled";
      var enabled := Truthy(if key in device.extra then device.extra[key]
                            else Get(device.extra, "subgroup_connection_enabled"));
      if enabled || "connection_subgroup_type" in device.extra || "subgroup_connection_type" in device.extra then mode
      else Unset
  }

  function EffectiveMode(group: Option<Group>, device: Option<Device>): Mode {
    var override := if device.Some? then DeviceOverride(device.value) else Unset;
    if override != Unset then override
    else match group
      case None => Unset
      case Some(g) =>
        var mode := NormalizeType(g.connectionType);
        if mode != Unset then mode
        else if g.usesJump then JumpHost
        else if g.usesVpn then Vpn
        else Direct
  }

  predicate UsesJumpHost(group: Option<Group>, device: Option<Device>) {
    EffectiveMode(group, device) == JumpHost
  }

  predicate UsesVpnTunnel(group: Option<Group>, device: Option<Device>) {
    EffectiveMode(group, device) == Vpn
  }

  // ---------------------------------------------------------------- which setting decides

  /** The names of the modes, in any case and padding. */
  lemma NamesExactly(value: string)
    ensures var raw := Lower(Strip(value));
            && (NormalizeType(value) == Vpn <==> raw == "vpn")
            && (NormalizeType(value) == JumpHost <==> raw == "jump" || raw == "jump_host")
            && (NormalizeType(value) == Direct <==> raw == "direct")
  {
  }

  /** An active subgroup with a known type decides, whatever the device and its group say. */
  lemma SubgroupDecides(group: Option<Group>, device: Device)
    requires device.subgroup.Some? && device.subgroup.value.active
    requires NormalizeType(device.subgroup.value.connectionType) != Unset
    ensures EffectiveMode(group, Some(device)) == NormalizeType(device.subgroup.value.connectionType)
  {
  }

  /** Else the device's own parameters do, if they name a known type. */
  lemma DeviceDecides(group: Option<Group>, device: Device)
    requires device.subgroup.None? || !device.subgroup.value.active
    requires "connection_subgroup_type" in device.extra
    requires NormalizeType(device.extra["connection_subgroup_type"]) != Unset
    ensures EffectiveMode(group, Some(device)) == NormalizeType(device.extra["connection_subgroup_type"])
  {
    assert Lower(Strip("")) == "";
  }

  /** Else the group's type does, and without one its flags, the Jump Host's before the VPN's, and then it is direct. */
  lemma GroupDecides(group: Group, device: Option<Device>)
    requires device.None? || (device.value.subgroup.None? && device.value.extra == map[])
    ensures var mode := EffectiveMode(Some(group), device);
            && (NormalizeType(group.connectionType) != Unset ==> mode == NormalizeType(group.connectionType))
            && (NormalizeType(group.connectionType) == Unset ==>
                  && (mode == JumpHost <==> group.usesJump)
                  && (mode == Vpn <==> group.usesVpn && !group.usesJump)
                  && (mode == Direct <==> !group.usesVpn && !group.usesJump))
    ensures EffectiveMode(None, device) == Unset
  {
    assert Lower(Strip("")) == "";
  }
}
