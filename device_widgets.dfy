/**
 * The device-list widgets (software/cs/gui/live_view/device_panel/DevicePanelWidgets.py):
 * the MAC address check, the two MAC dialogs, one device entry with its
 * status and disconnect button, and the "add device" entry.
 *
 * Dialogs are reduced to what the user leaves in them: whether OK was
 * pressed and the text of the fields. The input mask of the MAC field and
 * all painting are not modelled.
 */
module DeviceWidgets {
  import PyText

  const Connected: string := "Connected"
  const Disconnected: string := "Disconnected"
  const UnnamedDevice: string := "Unnamed Device"

  predicate IsHex(c: char)
  {
    '0' <= c <= '9' || 'a' <= c <= 'f' || 'A' <= c <= 'F'
  }

  /** `([0-9A-Fa-f]{2}:){groups}[0-9A-Fa-f]{2}`, anchored at both ends. */
  predicate MatchesGroups(s: string, groups: nat)
    decreases groups
  {
    if groups == 0 then |s| == 2 && IsHex(s[0]) && IsHex(s[1])
    else |s| >= 3 && IsHex(s[0]) && IsHex(s[1]) && s[2] == ':' && MatchesGroups(s[3..], groups - 1)
  }

  /** Colon-separated hex pairs, position by position. */
  predicate ColonHex(s: string, groups: nat)
  {
    |s| == 3 * groups + 2 && forall i :: 0 <= i < |s| ==> if i % 3 == 2 then s[i] == ':' else IsHex(s[i])
  }

  lemma {:induction false} GroupsArePositions(s: string, groups: nat)
    ensures MatchesGroups(s, groups) <==> ColonHex(s, groups)
    decreases groups
  {
    if groups > 0 && |s| >= 3 {
      GroupsArePositions(s[3..], groups - 1);
      if ColonHex(s, groups) {
        forall i | 0 <= i < |s[3..]|
          ensures if i % 3 == 2 then s[3..][i] == ':' else IsHex(s[3..][i])
        {
          assert s[3..][i] == s[i + 3] && (i + 3) % 3 == i % 3;
        }
      }
      if MatchesGroups(s, groups) {
        forall i | 0 <= i < |s|
          ensures if i % 3 == 2 then s[i] == ':' else IsHex(s[i])
        {
          if i >= 3 {
            assert s[i] == s[3..][i - 3] && (i - 3) % 3 == i % 3;
          }
        }
      }
    }
  }

  /** `is_valid_mac(addr)`: the stripped text is six hex pairs joined by colons, 17 characters in all. */
  function IsValidMac(addr: string): (ok: bool)
    ensures ok <==> ColonHex(PyText.Strip(addr), 5)
    ensures ok ==> |PyText.Strip(addr)| == 17
  {
    GroupsArePositions(PyText.Strip(addr), 5);
    MatchesGroups(PyText.Strip(addr), 5)
  }

  /** Upper-casing changes no whitespace, so it commutes with `strip()`. */
  lemma UpperStrip(s: string)
    ensures PyText.Strip(PyText.Upper(s)) == PyText.Upper(PyText.Strip(s))
  {
    var u := PyText.Upper(s);
    assert forall j :: 0 <= j < |s| ==> (PyText.IsSpace(u[j]) <==> PyText.IsSpace(s[j]));
    var a := PyText.SkipSpace(s, 0);
    var b := PyText.TrimEnd(s, a, |s|);
    PyText.SkipSpaceAt(u, 0, a);
    PyText.TrimEndAt(u, a, |s|, b);
  }

  lemma UpperKeepsColonHex(s: string, groups: nat)
    requires ColonHex(s, groups)
    ensures ColonHex(PyText.Upper(s), groups)
  {
  }

  /** `EditMacDialog.accept`: the dialog closes only on a valid address. */
  predicate EditMacAccepts(text: string)
  {
    IsValidMac(PyText.Strip(text))
  }

  /** `EditMacDialog.get_mac`: the stripped, upper-cased text. */
  function GetMac(text: string): string
  {
    PyText.Upper(PyText.Strip(text))
  }

  /** What an accepted MAC dialog hands back is itself a valid, upper-case address with no padding. */
  lemma EditedMacIsValid(text: string)
    requires EditMacAccepts(text)
    ensures IsValidMac(GetMac(text)) && |GetMac(text)| == 17
    ensures PyText.Strip(GetMac(text)) == GetMac(text)
    ensures forall i :: 0 <= i < 17 ==> !('a' <= GetMac(text)[i] <= 'z')
  {
    var t := PyText.Strip(text);
    PyText.StripTrimmed(t);
    UpperStrip(t);
    UpperKeepsColonHex(t, 5);
    PyText.StripTrimmed(PyText.Upper(t));
  }

  /** `AddDeviceDialog.accept`: the same check as the MAC editor. */
  predicate AddAccepts(macText: string)
  {
    IsValidMac(PyText.Strip(macText))
  }

  /** `AddDeviceDialog.get_values`: the MAC upper-cased but not stripped, and the stripped name or "Unnamed Device". */
  function GetValues(macText: string, nameText: string): (r: (string, string))
    ensures r.0 == PyText.Upper(macText)
    ensures PyText.Strip(nameText) == "" ==> r.1 == UnnamedDevice
    ensures PyText.Strip(nameText) != "" ==> r.1 == PyText.Strip(nameText)
  {
    (PyText.Upper(macText), if PyText.Strip(nameText) == "" then UnnamedDevice else PyText.Strip(nameText))
  }

  /** An accepted add dialog yields an address that passes the check, and a non-empty name. */
  lemma AddedValuesValid(macText: string, nameText: string)
    requires AddAccepts(macText)
    ensures IsValidMac(GetValues(macText, nameText).0) && GetValues(macText, nameText).0 != ""
    ensures GetValues(macText, nameText).1 != ""
  {
    var t := PyText.Strip(macText);
    PyText.StripTrimmed(t);
    UpperStrip(macText);
    UpperKeepsColonHex(t, 5);
  }

  /** One entry of the device list. */
  class DeviceWidget {
    var mac: string
    var name: string
    var status: string
    var disconnectVisible: bool
    /** `connectRequested`, `editRequested`, `macEditRequested` and `forgetRequested`, in order. */
    var connectRequests: seq<string>
    var editRequests: seq<string>
    var macEditRequests: seq<string>
    var forgetRequests: seq<string>

    /** `DeviceWidget(mac, name, status)`: an empty name shows the MAC; the disconnect button starts hidden. */
    constructor (mac: string, name: string, status: string)
      ensures this.mac == mac && this.status == status && !disconnectVisible
      ensures this.name == (if name == "" then mac else name)
      ensures connectRequests == [] && editRequests == [] && macEditRequests == [] && forgetRequests == []
    {
      this.mac := mac;
      this.name := if name == "" then mac else name;
      this.status := status;
      disconnectVisible := false;
      connectRequests := [];
      editRequests := [];
      macEditRequests := [];
      forgetRequests := [];
    }

    /** `set_status`: the disconnect button is shown exactly when the status is "Connected". */
    method SetStatus(status: string)
      modifies this
      ensures this.status == status && (disconnectVisible <==> status == Connected)
      ensures mac == old(mac) && name == old(name)
      ensures connectRequests == old(connectRequests) && editRequests == old(editRequests)
      ensures macEditRequests == old(macEditRequests) && forgetRequests == old(forgetRequests)
    {
      this.status := status;
      disconnectVisible := status == Connected;
    }

    /** A left click asks to connect, except on the connected device. */
    method LeftClick()
      modifies this
      ensures status == Connected ==> connectRequests == old(connectRequests)
      ensures status != Connected ==> connectRequests == old(connectRequests) + [mac]
      ensures mac == old(mac) && name == old(name) && status == old(status) && disconnectVisible == old(disconnectVisible)
      ensures editRequests == old(editRequests) && macEditRequests == old(macEditRequests) && forgetRequests == old(forgetRequests)
    {
      if status == Connected {
        return;
      }
      connectRequests := connectRequests + [mac];
    }

    /** `_edit_name_dialog`: a confirmed, non-blank name replaces the old one, stripped, and is announced. */
    method EditName(text: string, ok: bool)
      modifies this
      ensures ok && PyText.Strip(text) != "" ==> name == PyText.Strip(text) && editRequests == old(editRequests) + [mac]
      ensures !(ok && PyText.Strip(text) != "") ==> name == old(name) && editRequests == old(editRequests)
      ensures mac == old(mac) && status == old(status) && disconnectVisible == old(disconnectVisible)
      ensures connectRequests == old(connectRequests) && macEditRequests == old(macEditRequests) && forgetRequests == old(forgetRequests)
    {
      if ok && PyText.Strip(text) != "" {
        name := PyText.Strip(text);
        editRequests := editRequests + [mac];
      }
    }

    /** `_edit_mac_dialog`: an accepted dialog replaces the MAC with the normalised text and announces the old one. */
    method EditMac(okPressed: bool, text: string)
      modifies this
      ensures okPressed && EditMacAccepts(text) ==> mac == GetMac(text) && macEditRequests == old(macEditRequests) + [old(mac)]
      ensures !(okPressed && EditMacAccepts(text)) ==> mac == old(mac) && macEditRequests == old(macEditRequests)
      ensures name == old(name) && status == old(status) && disconnectVisible == old(disconnectVisible)
      ensures connectRequests == old(connectRequests) && editRequests == old(editRequests) && forgetRequests == old(forgetRequests)
    {
      if okPressed && EditMacAccepts(text) {
        macEditRequests := macEditRequests + [mac];
        mac := GetMac(text);
      }
    }

    /** `_confirm_forget`: only a "Yes" asks the panel to forget the device. */
    method ConfirmForget(yes: bool)
      modifies this
      ensures forgetRequests == old(forgetRequests) + (if yes then [mac] else [])
      ensures mac == old(mac) && name == old(name) && status == old(status) && disconnectVisible == old(disconnectVisible)
      ensures connectRequests == old(connectRequests) && editRequests == old(editRequests) && macEditRequests == old(macEditRequests)
    {
      if yes {
        forgetRequests := forgetRequests + [mac];
      }
    }
  }

  /** The "add new EPG device" entry at the bottom of the list. */
  class AddDeviceWidget {
    var enabled: bool
    /** `deviceAdded(mac, name)`, in order. */
    var added: seq<(string, string)>

    constructor ()
      ensures enabled && added == []
    {
      enabled := true;
      added := [];
    }

    /** A left click on the enabled entry opens the add dialog; an accepted dialog with a non-empty MAC announces the device. */
    method LeftClick(okPressed: bool, macText: string, nameText: string)
      modifies this
      ensures enabled == old(enabled)
      ensures enabled && okPressed && AddAccepts(macText) && GetValues(macText, nameText).0 != ""
        ==> added == old(added) + [GetValues(macText, nameText)]
      ensures !(enabled && okPressed && AddAccepts(macText) && GetValues(macText, nameText).0 != "")
        ==> added == old(added)
    {
      if enabled && okPressed && AddAccepts(macText) {
        var values := GetValues(macText, nameText);
        if values.0 != "" {
          added := added + [values];
        }
      }
    }
  }
}
