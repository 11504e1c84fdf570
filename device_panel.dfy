/**
 * The device panel (software/cs/gui/live_view/device_panel/DevicePanel.py):
 * the saved device list and its JSON form, and the bookkeeping of which
 * device is connected (`connected_address`), which one a switch is heading
 * for (`pending_address`) and what each entry of the list shows.
 *
 * The entries of the list are values inside the panel, in layout order; the
 * Bluetooth link is the sequence of `start`/`stop` calls the panel makes on it.
 */
module DevicePanel {
  import opened Wrappers
  import opened PyValue
  import PyText
  import W = DeviceWidgets

  // ---------------------------------------------------------------------------
  // DeviceStore: the device list file

  /** A loaded record, with the JSON values found under "MAC Address" and "Name". */
  datatype DeviceRecord = DeviceRecord(mac: Value, name: Value)

  /** One JSON object: `d.get("MAC Address")` and `d.get("Name", "Unnamed Device")`. */
  function RecordOf(entries: seq<(string, Value)>): (r: DeviceRecord)
    ensures !Has(entries, "MAC Address") ==> r.mac == PyNone
    ensures Has(entries, "MAC Address") ==> Get(entries, "MAC Address") == Some(r.mac)
    ensures !Has(entries, "Name") ==> r.name == Str(W.UnnamedDevice)
    ensures Has(entries, "Name") ==> Get(entries, "Name") == Some(r.name)
  {
    DeviceRecord(
      match Get(entries, "MAC Address") case Some(m) => m case None => PyNone,
      GetOr(entries, "Name", Str(W.UnnamedDevice)))
  }

  /** The loop of `load`: records with a falsy MAC are skipped; an item that is not an object raises AttributeError. */
  function Collect(items: seq<Value>): (r: Result<seq<DeviceRecord>, Exception>)
    ensures r.Err? <==> exists i :: 0 <= i < |items| && !items[i].Dict?
    ensures r.Ok? ==> |r.value| <= |items| && forall i :: 0 <= i < |r.value| ==> Truthy(r.value[i].mac)
  {
    if |items| == 0 then Ok([])
    else if !items[0].Dict? then Err(AttributeError)
    else
      var rec := RecordOf(items[0].entries);
      var rest := Collect(items[1..]);
      assert rest.Err? <==> exists i :: 1 <= i < |items| && !items[i].Dict? by {
        if rest.Err? {
          var i :| 0 <= i < |items[1..]| && !items[1..][i].Dict?;
          assert !items[i + 1].Dict?;
        }
        if exists i :: 1 <= i < |items| && !items[i].Dict? {
          var i :| 1 <= i < |items| && !items[i].Dict?;
          assert !items[1..][i - 1].Dict?;
        }
      }
      match rest
      case Err(e) => Err(e)
      case Ok(recs) => Ok((if Truthy(rec.mac) then [rec] else []) + recs)
  }

  /** `DeviceStore.load`: no file, or one that is not JSON (`file == None`), gives no devices. */
  function Load(file: Option<Value>): Result<seq<DeviceRecord>, Exception>
  {
    match file
    case None => Ok([])
    case Some(raw) => (var items :- Iterate(raw); Collect(items))
  }

  function SaveItem(device: (string, string)): Value
  {
    Dict([("MAC Address", Str(device.0)), ("Name", Str(device.1))])
  }

  /** `DeviceStore.save`: the JSON list written to the file. */
  function Save(devices: seq<(string, string)>): (v: Value)
    ensures v.List? && |v.items| == |devices|
    ensures forall i :: 0 <= i < |devices| ==> v.items[i] == SaveItem(devices[i])
  {
    List(seq(|devices|, i requires 0 <= i < |devices| => SaveItem(devices[i])))
  }

  /** The records a saved list loads back as: every device with a non-empty MAC, in order. */
  function Kept(devices: seq<(string, string)>): seq<DeviceRecord>
  {
    if |devices| == 0 then []
    else (if devices[0].0 != "" then [DeviceRecord(Str(devices[0].0), Str(devices[0].1))] else []) + Kept(devices[1..])
  }

  /** Loading what was saved gives back every device with a non-empty MAC, name and all. */
  lemma {:induction false} SaveLoadRoundTrip(devices: seq<(string, string)>)
    ensures Load(Some(Save(devices))) == Ok(Kept(devices))
    decreases |devices|
  {
    CollectSaved(devices);
  }

  lemma {:induction false} CollectSaved(devices: seq<(string, string)>)
    ensures Collect(Save(devices).items) == Ok(Kept(devices))
    decreases |devices|
  {
    if |devices| > 0 {
      CollectSaved(devices[1..]);
      assert Save(devices).items[1..] == Save(devices[1..]).items;
      var entries := SaveItem(devices[0]).entries;
      assert Get(entries, "Name") == Some(Str(devices[0].1)) by {
        assert entries[1..] == [("Name", Str(devices[0].1))];
      }
    }
  }

  // ---------------------------------------------------------------------------
  // The list of entries

  /** One entry of the list: its MAC, its name and the status it shows. */
  datatype Device = Device(mac: string, name: string, status: string)

  /** A call the panel makes on its Bluetooth link. */
  datatype IoCall = Start(mac: string) | Stop

  const Disconnecting: string := "Disconnecting..."
  const Connecting: string := "Connecting..."
  const Reconnecting: string := "Reconnecting..."
  const ErrorStatus: string := "Error"
  const BluetoothOff: string := "Bluetooth OFF"

  /** An address that is set and non-empty: Python truthiness of an optional string. */
  predicate Present(a: Option<string>)
  {
    a.Some? && a.value != ""
  }

  /** `a or b` for optional strings. */
  function OrElse(a: Option<string>, b: Option<string>): (r: Option<string>)
    ensures Present(a) ==> r == a
    ensures !Present(a) ==> r == b
  {
    if Present(a) then a else b
  }

  /** The first entry at or after `k` with this MAC. */
  function FindFrom(devices: seq<Device>, mac: string, k: nat): (r: Option<nat>)
    requires k <= |devices|
    ensures r.Some? ==> k <= r.value < |devices| && devices[r.value].mac == mac
    ensures r.Some? ==> forall j :: k <= j < r.value ==> devices[j].mac != mac
    ensures r.None? ==> forall j :: k <= j < |devices| ==> devices[j].mac != mac
    decreases |devices| - k
  {
    if k == |devices| then None
    else if devices[k].mac == mac then Some(k)
    else FindFrom(devices, mac, k + 1)
  }

  /** `_find_device_widget(mac)`: no entry for a missing address, else the first entry with it. */
  function Find(devices: seq<Device>, mac: Option<string>): (r: Option<nat>)
    ensures !Present(mac) ==> r.None?
    ensures Present(mac) ==> r == FindFrom(devices, mac.value, 0)
  {
    if Present(mac) then FindFrom(devices, mac.value, 0) else None
  }

  /** `_set_device_status(mac, status)`: the first entry with the address takes the status; nothing else changes. */
  function WithStatus(devices: seq<Device>, mac: Option<string>, status: string): (r: seq<Device>)
    ensures |r| == |devices|
    ensures forall i :: 0 <= i < |r| ==> r[i].mac == devices[i].mac && r[i].name == devices[i].name
    ensures forall i :: 0 <= i < |r| ==> r[i].status == (if Find(devices, mac) == Some(i) then status else devices[i].status)
  {
    match Find(devices, mac)
    case Some(i) => devices[i := devices[i].(status := status)]
    case None => devices
  }

  /** `_clear_other_devices_connected(keep)`: every other connected entry shows "Disconnected". */
  function ClearOthers(devices: seq<Device>, keep: Option<string>): (r: seq<Device>)
    ensures |r| == |devices|
    ensures forall i :: 0 <= i < |r| ==> r[i].mac == devices[i].mac && r[i].name == devices[i].name
    ensures forall i :: 0 <= i < |r| && Some(devices[i].mac) == keep ==> r[i] == devices[i]
    ensures forall i :: 0 <= i < |r| && r[i].status == W.Connected ==> Some(r[i].mac) == keep
    ensures forall i :: 0 <= i < |r| && devices[i].status != W.Connected ==> r[i] == devices[i]
  {
    seq(|devices|, i requires 0 <= i < |devices| =>
      if Some(devices[i].mac) != keep && devices[i].status == W.Connected then devices[i].(status := W.Disconnected) else devices[i])
  }

  /** `_current_devices()`: (mac, name) of every entry, in order. */
  function Records(devices: seq<Device>): (r: seq<(string, string)>)
    ensures |r| == |devices| && forall i :: 0 <= i < |r| ==> r[i] == (devices[i].mac, devices[i].name)
  {
    seq(|devices|, i requires 0 <= i < |devices| => (devices[i].mac, devices[i].name))
  }

  /** The list after `_remove_device(mac)`: its first entry with the MAC is gone. */
  function RemoveFirst(devices: seq<Device>, mac: string): (r: seq<Device>)
    ensures FindFrom(devices, mac, 0).None? ==> r == devices
    ensures FindFrom(devices, mac, 0).Some? ==> |r| == |devices| - 1
  {
    match FindFrom(devices, mac, 0)
    case Some(i) => devices[..i] + devices[i + 1..]
    case None => devices
  }

  /** With distinct MACs, a removed device is gone from the list, and every other entry keeps its relative order. */
  lemma RemoveForgets(devices: seq<Device>, mac: string)
    requires UniqueMacs(devices)
    ensures FindFrom(RemoveFirst(devices, mac), mac, 0).None?
    ensures forall d :: d in devices && d.mac != mac ==> d in RemoveFirst(devices, mac)
    ensures forall d :: d in RemoveFirst(devices, mac) ==> d in devices && d.mac != mac
  {
    var r := RemoveFirst(devices, mac);
    match FindFrom(devices, mac, 0)
    case None =>
    case Some(i) =>
      assert forall j :: 0 <= j < |r| ==> r[j] == (if j < i then devices[j] else devices[j + 1]);
      forall d | d in devices && d.mac != mac ensures d in r {
        var k :| 0 <= k < |devices| && devices[k] == d;
        if k < i { assert r[k] == d; } else { assert k != i && r[k - 1] == d; }
      }
  }

  /** The entry for a new device: an empty name shows the MAC. */
  function NewDevice(mac: string, name: string): Device
  {
    Device(mac, if name == "" then mac else name, W.Disconnected)
  }

  /** The list and the connected address after `connectedChanged(True)`. */
  function AfterConnected(devices: seq<Device>, pending: Option<string>, connected: Option<string>): (seq<Device>, Option<string>)
  {
    var newMac := OrElse(pending, connected);
    var d := if Present(newMac) && Present(connected) && connected != newMac then WithStatus(devices, connected, W.Disconnected) else devices;
    if Present(newMac) then (ClearOthers(WithStatus(d, newMac, W.Connected), newMac), newMac) else (d, newMac)
  }

  predicate UniqueMacs(devices: seq<Device>)
  {
    forall i, j :: 0 <= i < j < |devices| ==> devices[i].mac != devices[j].mac
  }

  /**
   * After a connection comes up, the address is the pending one or else the
   * old one; its entry shows "Connected"; every entry showing "Connected" has
   * that address, so with distinct MACs at most one does.
   */
  lemma ConnectedLeavesOneConnected(devices: seq<Device>, pending: Option<string>, connected: Option<string>)
    ensures AfterConnected(devices, pending, connected).1 == OrElse(pending, connected)
    ensures var (d, c) := AfterConnected(devices, pending, connected);
      Present(c) ==>
        && (Find(d, c).Some? ==> d[Find(d, c).value].status == W.Connected)
        && (forall i :: 0 <= i < |d| && d[i].status == W.Connected ==> Some(d[i].mac) == c)
        && (UniqueMacs(devices) ==> forall i, j :: 0 <= i < |d| && 0 <= j < |d| && d[i].status == W.Connected && d[j].status == W.Connected ==> i == j)
  {
    var newMac := OrElse(pending, connected);
    if Present(newMac) {
      var d0 := if Present(connected) && connected != newMac then WithStatus(devices, connected, W.Disconnected) else devices;
      var d1 := WithStatus(d0, newMac, W.Connected);
      var d := ClearOthers(d1, newMac);
      assert AfterConnected(devices, pending, connected) == (d, newMac);
      SameMacsSameFind(d, d1, newMac.value, 0);
      assert forall i :: 0 <= i < |d| ==> d[i].mac == devices[i].mac;
    }
  }

  /** Finding an address depends on the MACs only. */
  lemma {:induction false} SameMacsSameFind(a: seq<Device>, b: seq<Device>, mac: string, k: nat)
    requires |a| == |b| && k <= |a| && forall i :: 0 <= i < |a| ==> a[i].mac == b[i].mac
    ensures FindFrom(a, mac, k) == FindFrom(b, mac, k)
    decreases |a| - k
  {
    if k < |a| {
      SameMacsSameFind(a, b, mac, k + 1);
    }
  }

  // ---------------------------------------------------------------------------
  // The panel

  class Panel {
    var devices: seq<Device>
    var connectedAddress: Option<string>
    var pendingAddress: Option<string>
    var deviceConnected: bool
    /** The list last written to the device file by this panel, if any. */
    var saved: Option<Value>
    var io: seq<IoCall>
    var statusText: string
    var settingsButtonVisible: bool
    var sectionEnabled: bool
    /** `bluetoothEnabledChanged`, in order. */
    var enabledSignals: seq<bool>

    /** `DevicePanel()`: one entry per loaded record, nothing saved, nothing connected. */
    constructor (records: seq<(string, string)>)
      ensures devices == seq(|records|, i requires 0 <= i < |records| => NewDevice(records[i].0, records[i].1))
      ensures connectedAddress == None && pendingAddress == None && !deviceConnected
      ensures saved == None && io == [] && enabledSignals == []
    {
      connectedAddress := None;
      pendingAddress := None;
      deviceConnected := false;
      saved := None;
      io := [];
      statusText := "Checking Bluetooth...";
      settingsButtonVisible := true;
      sectionEnabled := true;
      enabledSignals := [];
      devices := [];
      new;
      var i := 0;
      while i < |records|
        invariant 0 <= i <= |records|
        invariant devices == seq(i, k requires 0 <= k < i => NewDevice(records[k].0, records[k].1))
        invariant connectedAddress == None && pendingAddress == None && !deviceConnected
        invariant saved == None && io == [] && enabledSignals == []
      {
        devices := devices + [NewDevice(records[i].0, records[i].1)];
        i := i + 1;
      }
    }

    /** `_find_device_widget(mac)`. */
    method FindDeviceWidget(mac: Option<string>) returns (r: Option<nat>)
      ensures r == Find(devices, mac)
    {
      if !Present(mac) {
        return None;
      }
      var i := 0;
      while i < |devices|
        invariant 0 <= i <= |devices| && FindFrom(devices, mac.value, i) == FindFrom(devices, mac.value, 0)
      {
        if devices[i].mac == mac.value {
          return Some(i);
        }
        i := i + 1;
      }
      return None;
    }

    /** `_set_device_status(mac, status)`. */
    method SetDeviceStatus(mac: Option<string>, status: string)
      modifies this
      ensures devices == WithStatus(old(devices), mac, status)
      ensures connectedAddress == old(connectedAddress) && pendingAddress == old(pendingAddress)
      ensures deviceConnected == old(deviceConnected) && saved == old(saved) && io == old(io)
      ensures statusText == old(statusText) && settingsButtonVisible == old(settingsButtonVisible)
      ensures sectionEnabled == old(sectionEnabled) && enabledSignals == old(enabledSignals)
    {
      var w := FindDeviceWidget(mac);
      if w.Some? {
        devices := devices[w.value := devices[w.value].(status := status)];
      }
    }

    /** `_clear_other_devices_connected(keep_mac)`. */
    method ClearOtherDevicesConnected(keep: Option<string>)
      modifies this
      ensures devices == ClearOthers(old(devices), keep)
      ensures connectedAddress == old(connectedAddress) && pendingAddress == old(pendingAddress)
      ensures deviceConnected == old(deviceConnected) && saved == old(saved) && io == old(io)
      ensures statusText == old(statusText) && settingsButtonVisible == old(settingsButtonVisible)
      ensures sectionEnabled == old(sectionEnabled) && enabledSignals == old(enabledSignals)
    {
      var i := 0;
      while i < |devices|
        invariant 0 <= i <= |devices| == |old(devices)|
        invariant devices[..i] == ClearOthers(old(devices), keep)[..i]
        invariant devices[i..] == old(devices)[i..]
        invariant connectedAddress == old(connectedAddress) && pendingAddress == old(pendingAddress)
        invariant deviceConnected == old(deviceConnected) && saved == old(saved) && io == old(io)
        invariant statusText == old(statusText) && settingsButtonVisible == old(settingsButtonVisible)
        invariant sectionEnabled == old(sectionEnabled) && enabledSignals == old(enabledSignals)
      {
        assert devices[i] == old(devices)[i] by { assert devices[i..][0] == old(devices)[i..][0]; }
        if Some(devices[i].mac) != keep && devices[i].status == W.Connected {
          devices := devices[i := devices[i].(status := W.Disconnected)];
        }
        i := i + 1;
      }
      assert devices == devices[..i];
    }

    /** `_save_devices()`: the current (mac, name) list is written to the file. */
    method SaveDevices()
      modifies this
      ensures saved == Some(Save(Records(devices)))
      ensures devices == old(devices) && connectedAddress == old(connectedAddress) && pendingAddress == old(pendingAddress)
      ensures deviceConnected == old(deviceConnected) && io == old(io)
    {
      var out: seq<(string, string)> := [];
      var i := 0;
      while i < |devices|
        invariant 0 <= i <= |devices| && out == Records(devices)[..i]
      {
        out := out + [(devices[i].mac, devices[i].name)];
        i := i + 1;
      }
      assert out == Records(devices);
      saved := Some(Save(out));
    }

    /** `_add_device_widget(mac, name, save)`: a new disconnected entry at the end, saved when asked. */
    method AddDevice(mac: string, name: string, save: bool)
      modifies this
      ensures devices == old(devices) + [NewDevice(mac, name)]
      ensures save ==> saved == Some(Save(Records(devices)))
      ensures !save ==> saved == old(saved)
      ensures connectedAddress == old(connectedAddress) && pendingAddress == old(pendingAddress)
      ensures deviceConnected == old(deviceConnected) && io == old(io)
    {
      devices := devices + [NewDevice(mac, name)];
      if save {
        SaveDevices();
      }
    }

    /** `_add_device_dialog()`: an accepted dialog with a non-empty MAC adds and saves the device. */
    method AddDeviceDialog(okPressed: bool, macText: string, nameText: string)
      modifies this
      ensures var values := W.GetValues(macText, nameText);
        if okPressed && W.AddAccepts(macText) && values.0 != ""
        then devices == old(devices) + [NewDevice(values.0, values.1)] && saved == Some(Save(Records(devices)))
        else devices == old(devices) && saved == old(saved)
      ensures connectedAddress == old(connectedAddress) && pendingAddress == old(pendingAddress)
      ensures deviceConnected == old(deviceConnected) && io == old(io)
    {
      if okPressed && W.AddAccepts(macText) {
        var values := W.GetValues(macText, nameText);
        if values.0 != "" {
          AddDevice(values.0, values.1, true);
        }
      }
    }

    /** `_remove_device(mac)`: the first entry with the MAC goes, the list is saved, and an address equal to the MAC is cleared. */
    method RemoveDevice(mac: string)
      modifies this
      ensures devices == RemoveFirst(old(devices), mac)
      ensures saved == Some(Save(Records(devices)))
      ensures connectedAddress == (if old(connectedAddress) == Some(mac) then None else old(connectedAddress))
      ensures pendingAddress == (if old(pendingAddress) == Some(mac) then None else old(pendingAddress))
      ensures deviceConnected == old(deviceConnected) && io == old(io)
    {
      var i := 0;
      while i < |devices|
        invariant 0 <= i <= |devices| && FindFrom(devices, mac, i) == FindFrom(devices, mac, 0)
      {
        if devices[i].mac == mac {
          devices := devices[..i] + devices[i + 1..];
          break;
        }
        i := i + 1;
      }
      SaveDevices();
      if connectedAddress == Some(mac) {
        connectedAddress := None;
      }
      if pendingAddress == Some(mac) {
        pendingAddress := None;
      }
    }

    /** The entry's name dialog: a confirmed, non-blank name is stored stripped and the list saved. */
    method EditName(i: nat, text: string, ok: bool)
      requires i < |devices|
      modifies this
      ensures ok && PyText.Strip(text) != "" ==>
        devices == old(devices)[i := old(devices)[i].(name := PyText.Strip(text))] && saved == Some(Save(Records(devices)))
      ensures !(ok && PyText.Strip(text) != "") ==> devices == old(devices) && saved == old(saved)
      ensures connectedAddress == old(connectedAddress) && pendingAddress == old(pendingAddress)
      ensures deviceConnected == old(deviceConnected) && io == old(io)
    {
      if ok && PyText.Strip(text) != "" {
        devices := devices[i := devices[i].(name := PyText.Strip(text))];
        SaveDevices();
      }
    }

    /** The entry's MAC dialog: an accepted address replaces the MAC and the list is saved; the connected and pending addresses are not remapped. */
    method EditMac(i: nat, okPressed: bool, text: string)
      requires i < |devices|
      modifies this
      ensures okPressed && W.EditMacAccepts(text) ==>
        devices == old(devices)[i := old(devices)[i].(mac := W.GetMac(text))] && saved == Some(Save(Records(devices)))
      ensures !(okPressed && W.EditMacAccepts(text)) ==> devices == old(devices) && saved == old(saved)
      ensures connectedAddress == old(connectedAddress) && pendingAddress == old(pendingAddress)
      ensures deviceConnected == old(deviceConnected) && io == old(io)
    {
      if okPressed && W.EditMacAccepts(text) {
        devices := devices[i := devices[i].(mac := W.GetMac(text))];
        SaveDevices();
      }
    }

    /** `_disconnect_device_clicked`: only the connected device's button stops the link. */
    method DisconnectClicked(i: nat)
      requires i < |devices|
      modifies this
      ensures var hit := old(deviceConnected) && old(connectedAddress) == Some(old(devices)[i].mac);
        && (hit ==> devices == WithStatus(old(devices), Some(old(devices)[i].mac), Disconnecting) && io == old(io) + [Stop])
        && (!hit ==> devices == old(devices) && io == old(io))
      ensures connectedAddress == old(connectedAddress) && pendingAddress == old(pendingAddress) && deviceConnected == old(deviceConnected)
    {
      var mac := devices[i].mac;
      if deviceConnected && connectedAddress == Some(mac) {
        SetDeviceStatus(Some(mac), Disconnecting);
        io := io + [Stop];
      }
    }

    /** `_on_bt_connected_changed(connected)`. */
    method OnConnectedChanged(connected: bool)
      modifies this
      ensures deviceConnected == connected
      ensures connected ==> ((devices, connectedAddress) == AfterConnected(old(devices), old(pendingAddress), old(connectedAddress))
        && pendingAddress == None)
      ensures !connected && !Present(old(pendingAddress)) && Present(old(connectedAddress)) ==>
        devices == WithStatus(old(devices), old(connectedAddress), W.Disconnected) && connectedAddress == None && pendingAddress == old(pendingAddress)
      ensures !connected && !(!Present(old(pendingAddress)) && Present(old(connectedAddress))) ==>
        devices == old(devices) && connectedAddress == old(connectedAddress) && pendingAddress == old(pendingAddress)
      ensures saved == old(saved) && io == old(io)
    {
      deviceConnected := connected;
      if connected {
        var newMac := OrElse(pendingAddress, connectedAddress);
        if Present(newMac) && Present(connectedAddress) && connectedAddress != newMac {
          SetDeviceStatus(connectedAddress, W.Disconnected);
        }
        connectedAddress := newMac;
        pendingAddress := None;
        if Present(connectedAddress) {
          SetDeviceStatus(connectedAddress, W.Connected);
          ClearOtherDevicesConnected(connectedAddress);
        }
      } else {
        if !Present(pendingAddress) && Present(connectedAddress) {
          SetDeviceStatus(connectedAddress, W.Disconnected);
          connectedAddress := None;
        }
      }
    }

    /** `_on_bt_reconnecting_changed(reconnecting)`: the connected (else pending) entry shows "Reconnecting...". */
    method OnReconnectingChanged(reconnecting: bool)
      modifies this
      ensures reconnecting ==> devices == WithStatus(old(devices), OrElse(old(connectedAddress), old(pendingAddress)), Reconnecting)
      ensures !reconnecting ==> devices == old(devices)
      ensures connectedAddress == old(connectedAddress) && pendingAddress == old(pendingAddress)
      ensures deviceConnected == old(deviceConnected) && saved == old(saved) && io == old(io)
    {
      var target := OrElse(connectedAddress, pendingAddress);
      if reconnecting {
        SetDeviceStatus(target, Reconnecting);
      }
    }

    /** `_on_bt_error`: the connected (else pending) entry shows "Error". */
    method OnError()
      modifies this
      ensures devices == WithStatus(old(devices), OrElse(old(connectedAddress), old(pendingAddress)), ErrorStatus)
      ensures connectedAddress == old(connectedAddress) && pendingAddress == old(pendingAddress)
      ensures deviceConnected == old(deviceConnected) && saved == old(saved) && io == old(io)
    {
      var mac := OrElse(connectedAddress, pendingAddress);
      if Present(mac) {
        SetDeviceStatus(mac, ErrorStatus);
      }
    }

    /**
     * `_on_bt_state_changed(has_adapter, enabled)`: a present but disabled
     * adapter stops the link, marks the connected and pending entries
     * "Bluetooth OFF" and forgets both addresses; the device section is usable
     * exactly when the adapter is present and enabled.
     */
    method OnStateChanged(hasAdapter: bool, enabled: bool)
      modifies this
      ensures hasAdapter && !enabled ==>
        && connectedAddress == None && pendingAddress == None && !deviceConnected
        && io == old(io) + [Stop]
        && devices == (var d := if Present(old(connectedAddress)) then WithStatus(old(devices), old(connectedAddress), BluetoothOff) else old(devices);
             if Present(old(pendingAddress)) && old(pendingAddress) != old(connectedAddress) then WithStatus(d, old(pendingAddress), BluetoothOff) else d)
      ensures !(hasAdapter && !enabled) ==>
        devices == old(devices) && connectedAddress == old(connectedAddress) && pendingAddress == old(pendingAddress)
        && deviceConnected == old(deviceConnected) && io == old(io)
      ensures sectionEnabled == (hasAdapter && enabled) && settingsButtonVisible == (hasAdapter && !enabled)
      ensures enabledSignals == old(enabledSignals) + [hasAdapter && enabled]
      ensures statusText == (if !hasAdapter then "No Bluetooth adapter found." else if enabled then "Bluetooth is ON" else "Bluetooth is OFF")
      ensures saved == old(saved)
    {
      if hasAdapter && !enabled {
        io := io + [Stop];
        if Present(connectedAddress) {
          SetDeviceStatus(connectedAddress, BluetoothOff);
        }
        if Present(pendingAddress) && pendingAddress != connectedAddress {
          SetDeviceStatus(pendingAddress, BluetoothOff);
        }
        connectedAddress := None;
        pendingAddress := None;
        deviceConnected := false;
      }
      if !hasAdapter {
        statusText := "No Bluetooth adapter found.";
        settingsButtonVisible := false;
        enabledSignals := enabledSignals + [false];
        sectionEnabled := false;
      } else if enabled {
        statusText := "Bluetooth is ON";
        settingsButtonVisible := false;
        enabledSignals := enabledSignals + [true];
        sectionEnabled := true;
      } else {
        statusText := "Bluetooth is OFF";
        settingsButtonVisible := true;
        enabledSignals := enabledSignals + [false];
        sectionEnabled := false;
      }
    }

    /**
     * `_on_device_clicked`: unless the user declines the switch or clicks the
     * connected device, the link is stopped, the previous device shows
     * "Disconnected", and the clicked one becomes pending and is started.
     */
    method OnDeviceClicked(i: nat, confirmed: bool)
      requires i < |devices|
      modifies this
      ensures var mac := old(devices)[i].mac;
        var ignored := old(deviceConnected) && (!confirmed || old(connectedAddress) == Some(mac));
        && (ignored ==> (devices == old(devices) && io == old(io) && connectedAddress == old(connectedAddress)
              && pendingAddress == old(pendingAddress) && deviceConnected == old(deviceConnected)))
        && (!ignored ==>
              && pendingAddress == Some(mac) && connectedAddress == None && !deviceConnected
              && io == old(io) + [Stop, Start(mac)]
              && devices == (var previous := if Present(old(connectedAddress)) && old(connectedAddress) != Some(mac) then old(connectedAddress) else None;
                   var d := if Present(previous) then WithStatus(WithStatus(old(devices), previous, Disconnecting), previous, W.Disconnected) else old(devices);
                   WithStatus(d, Some(mac), Connecting)))
      ensures saved == old(saved)
    {
      var mac := devices[i].mac;
      if deviceConnected && !confirmed {
        return;
      }
      if deviceConnected && connectedAddress == Some(mac) {
        return;
      }
      var previous := if Present(connectedAddress) && connectedAddress != Some(mac) then connectedAddress else None;
      if Present(previous) {
        SetDeviceStatus(previous, Disconnecting);
      }
      io := io + [Stop];
      if Present(previous) {
        SetDeviceStatus(previous, W.Disconnected);
      }
      connectedAddress := None;
      deviceConnected := false;
      pendingAddress := Some(mac);
      SetDeviceStatus(pendingAddress, Connecting);
      io := io + [Start(mac)];
    }
  }
}
