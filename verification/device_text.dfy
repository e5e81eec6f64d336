/** The strings the device worker and the info panel derive from device
    properties: the property fallbacks, the backup folder name, the
    truncated UDID and the model caption of the placeholder. */
module DeviceText {
  import opened Wrappers
  import opened Text

  /** Python's `value or fallback` for a property that may be missing. */
  function OrElse(value: Option<string>, fallback: string): (r: string)
    ensures value.Some? && value.value != "" ==> r == value.value
    ensures value.None? || value.value == "" ==> r == fallback
  {
    if value.Some? && value.value != "" then value.value else fallback
  }

  /** The properties the worker reads from lockdown, each with its fallback. */
  datatype DeviceInfo = DeviceInfo(
    name: string, version: string, serial: string,
    udid: string, model: string, build: string)

  /** `device_info` built from `lockdown.get_value(key=...)`; `get` answers
      `None` for a missing key. */
  function ReadDeviceInfo(get: string -> Option<string>): (info: DeviceInfo)
    ensures info.name != "" && info.version != "" && info.serial != ""
    ensures info.udid != "" && info.model != "" && info.build != ""
    ensures get("UniqueDeviceID").None? ==> info.udid == "Unknown UDID"
    ensures get("DeviceName").Some? && get("DeviceName").value != "" ==> info.name == get("DeviceName").value
    ensures info.name == OrElse(get("DeviceName"), "Unknown Device")
    ensures info.version == OrElse(get("ProductVersion"), "Unknown Version")
    ensures info.serial == OrElse(get("SerialNumber"), "Unknown Serial")
    ensures info.udid == OrElse(get("UniqueDeviceID"), "Unknown UDID")
    ensures info.model == OrElse(get("ProductType"), "Unknown Model")
    ensures info.build == OrElse(get("BuildVersion"), "Unknown Build")
  {
    DeviceInfo(
      OrElse(get("DeviceName"), "Unknown Device"),
      OrElse(get("ProductVersion"), "Unknown Version"),
      OrElse(get("SerialNumber"), "Unknown Serial"),
      OrElse(get("UniqueDeviceID"), "Unknown UDID"),
      OrElse(get("ProductType"), "Unknown Model"),
      OrElse(get("BuildVersion"), "Unknown Build"))
  }

  // ---------------------------------------------------------------------
  // Backup folder name

  /** Characters `run_backup` keeps in a device name. */
  predicate KeptInName(c: char) { IsAlnum(c) || c == ' ' || c == '-' || c == '_' }

  /** Every character of `s` is one `run_backup` keeps. */
  predicate AllKept(s: string) { forall i :: 0 <= i < |s| ==> KeptInName(s[i]) }

  /** `"".join(c for c in s if c.isalnum() or c in (' ', '-', '_'))` */
  function KeepNameChars(s: string): (r: string)
    ensures |r| <= |s|
    ensures AllKept(r)
    ensures AllKept(s) ==> r == s
  {
    if |s| == 0 then []
    else (if KeptInName(s[0]) then [s[0]] else []) + KeepNameChars(s[1..])
  }

  /** The filter works character by character: it distributes over
      concatenation and keeps a single character exactly when it is kept, so
      the kept characters stay in order and keep their multiplicity. */
  lemma {:induction false} KeepNameCharsAppend(a: string, b: string)
    ensures KeepNameChars(a + b) == KeepNameChars(a) + KeepNameChars(b)
    decreases |a|
  {
    if |a| == 0 {
      assert a + b == b;
    } else {
      var ab := a + b;
      assert ab[0] == a[0] && ab[1..] == a[1..] + b;
      var h := if KeptInName(a[0]) then [a[0]] else [];
      assert KeepNameChars(ab) == h + KeepNameChars(a[1..] + b);
      assert KeepNameChars(a) == h + KeepNameChars(a[1..]);
      KeepNameCharsAppend(a[1..], b);
      assert h + (KeepNameChars(a[1..]) + KeepNameChars(b)) == (h + KeepNameChars(a[1..])) + KeepNameChars(b);
    }
  }

  lemma KeepNameCharsSingle(c: char)
    ensures KeepNameChars([c]) == if KeptInName(c) then [c] else []
  {
    assert [c][1..] == [];
  }

  /** The filter keeps every kept character of `s` and nothing else. */
  lemma {:induction false} KeepNameCharsContents(s: string)
    ensures forall c :: c in KeepNameChars(s) <==> c in s && KeptInName(c)
  {
    if |s| > 0 {
      KeepNameCharsContents(s[1..]);
      assert s == [s[0]] + s[1..];
    }
  }

  /** Number of leading whitespace characters. */
  function LeadingSpace(s: string): (k: nat)
    ensures k <= |s|
    ensures forall i :: 0 <= i < k ==> IsSpace(s[i])
    ensures k < |s| ==> !IsSpace(s[k])
  {
    if |s| > 0 && IsSpace(s[0]) then 1 + LeadingSpace(s[1..]) else 0
  }

  /** Number of trailing whitespace characters. */
  function TrailingSpace(s: string): (k: nat)
    ensures k <= |s|
    ensures forall i :: |s| - k <= i < |s| ==> IsSpace(s[i])
    ensures k < |s| ==> !IsSpace(s[|s| - 1 - k])
  {
    if |s| > 0 && IsSpace(s[|s| - 1]) then 1 + TrailingSpace(s[..|s| - 1]) else 0
  }

  /** `str.strip()`: the slice of `s` between its leading and trailing
      whitespace. */
  function Strip(s: string): (r: string)
    ensures LeadingSpace(s) + |r| <= |s|
    ensures r == s[LeadingSpace(s)..LeadingSpace(s) + |r|]
    ensures forall i :: LeadingSpace(s) + |r| <= i < |s| ==> IsSpace(s[i])
    ensures |r| > 0 ==> !IsSpace(r[0]) && !IsSpace(r[|r| - 1])
    ensures |s| == 0 || (!IsSpace(s[0]) && !IsSpace(s[|s| - 1])) ==> r == s
  {
    var a := LeadingSpace(s);
    var t := s[a..];
    var b := a + (|t| - TrailingSpace(t));
    assert s[a..b] == t[..|t| - TrailingSpace(t)];
    s[a..b]
  }

  /** The device-name part of the backup folder name: kept characters only,
      without surrounding spaces. */
  function Sanitize(s: string): (r: string)
    ensures AllKept(r)
    ensures '/' !in r && '\\' !in r && '.' !in r && ':' !in r
    ensures |r| > 0 ==> r[0] != ' ' && r[|r| - 1] != ' '
    ensures r == Strip(KeepNameChars(s))
  {
    var kept := KeepNameChars(s);
    StripKeepsKept(kept);
    KeptCharsAreNoSeparators(Strip(kept));
    Strip(kept)
  }

  lemma StripKeepsKept(s: string)
    requires AllKept(s)
    ensures AllKept(Strip(s))
  {
    var r := Strip(s);
    forall i | 0 <= i < |r| ensures KeptInName(r[i]) {
      assert r[i] == s[LeadingSpace(s) + i];
    }
  }

  lemma KeptCharsAreNoSeparators(r: string)
    requires AllKept(r)
    ensures '/' !in r && '\\' !in r && '.' !in r && ':' !in r
  {
  }

  /** Sanitising a sanitised name changes nothing. */
  lemma SanitizeIdempotent(s: string)
    ensures Sanitize(Sanitize(s)) == Sanitize(s)
  {
    var r := Sanitize(s);
    assert KeepNameChars(r) == r;
  }

  /** A name made of kept characters, with no space at either end, is left
      as it is. */
  lemma SanitizeKeepsCleanName(s: string)
    requires AllKept(s)
    requires |s| > 0 ==> s[0] != ' ' && s[|s| - 1] != ' '
    ensures Sanitize(s) == s
  {
  }

  /** The device-name part of the folder `run_backup` creates: a missing
      or empty name becomes `Unknown_Device` before sanitising. */
  function BackupFolderName(name: Option<string>): (r: string)
    ensures AllKept(r)
    ensures name.None? || name.value == "" ==> r == "Unknown_Device"
    ensures name.Some? && name.value != "" ==> r == Sanitize(name.value)
    ensures Sanitize(r) == r
  {
    UnknownDeviceIsClean();
    SanitizeOr(name, "Unknown_Device")
  }

  /** Sanitises `name`, falling back on a name that is already clean. */
  function SanitizeOr(name: Option<string>, fallback: string): (r: string)
    requires AllKept(fallback)
    requires |fallback| > 0 ==> fallback[0] != ' ' && fallback[|fallback| - 1] != ' '
    ensures AllKept(r)
    ensures name.None? || name.value == "" ==> r == fallback
    ensures name.Some? && name.value != "" ==> r == Sanitize(name.value)
    ensures Sanitize(r) == r
  {
    var raw := OrElse(name, fallback);
    SanitizeIdempotent(raw);
    SanitizeKeepsCleanName(fallback);
    Sanitize(raw)
  }

  lemma UnknownDeviceIsClean()
    ensures AllKept("Unknown_Device")
  {
    var s := "Unknown_Device";
    forall i | 0 <= i < |s| ensures KeptInName(s[i]) {
    }
  }

  /** A name with no kept character leaves an empty device-name part. */
  lemma FolderNameCanBeEmpty(name: string)
    requires name != "" && forall i :: 0 <= i < |name| ==> !KeptInName(name[i])
    ensures BackupFolderName(Some(name)) == ""
  {
    KeepNothing(name);
  }

  lemma {:induction false} KeepNothing(s: string)
    requires forall i :: 0 <= i < |s| ==> !KeptInName(s[i])
    ensures KeepNameChars(s) == []
    decreases |s|
  {
    if |s| > 0 {
      KeepNothing(s[1..]);
    }
  }

  // ---------------------------------------------------------------------
  // Display strings

  /** The UDID row of the info panel: the first eight characters and `...`,
      or `N/A` when the UDID is missing or empty. */
  function UdidDisplay(udid: Option<string>): (r: string)
    ensures udid.None? || udid.value == "" <==> r == "N/A"
    ensures r != "N/A" ==> |r| == (if |udid.value| < 8 then |udid.value| else 8) + 3
    ensures r != "N/A" ==> StartsWith(udid.value, r[..|r| - 3]) && r[|r| - 3..] == "..."
  {
    if udid.Some? && udid.value != "" then
      var u := udid.value;
      var shown := if |u| < 8 then u else u[..8];
      assert (shown + "...")[..|shown|] == shown;
      shown + "..."
    else "N/A"
  }

  /** The worker always fills in a UDID, so the panel never shows `N/A`. */
  lemma UdidAlwaysShown(get: string -> Option<string>)
    ensures UdidDisplay(Some(ReadDeviceInfo(get).udid)) != "N/A"
  {
  }

  /** The model line of the placeholder: `model.replace('iPhone', '')`. */
  function ModelCaption(model: string): (r: string)
    ensures |r| <= |model|
    ensures !Contains(model, "iPhone") ==> r == model
    ensures Contains(model, "iPhone") ==> |r| + 6 <= |model|
    ensures (|model| - |r|) % 6 == 0
  {
    RemoveAll(model, "iPhone")
  }

  /** A product type loses its `iPhone` prefix. */
  lemma ProductTypeCaption()
    ensures ModelCaption("iPhone14,5") == "14,5"
  {
    RemoveLeading("iPhone", "14,5");
    assert "iPhone" + "14,5" == "iPhone14,5";
    NotContainsLonger("14,5", "iPhone");
  }

  /** A removal can join the remaining halves into a fresh `iPhone`, which
      stays: the scan does not go back. */
  lemma CaptionDoesNotRescan()
    ensures ModelCaption("iPiPhonehone") == "iPhone"
  {
    var pat := "iPhone";
    RemovalRejoins(pat);
    assert pat[..2] + pat + pat[2..] == "iPiPhonehone";
  }

  /** Removing `pat` from the middle of `pat[..2] + pat + pat[2..]` leaves
      `pat` again, when the first letter of `pat` is not repeated in the
      next two. */
  lemma RemovalRejoins(pat: string)
    requires |pat| >= 3 && pat[0] != pat[1] && pat[0] != pat[2]
    ensures RemoveAll(pat[..2] + pat + pat[2..], pat) == pat
  {
    var w := pat[2..];
    var x := pat + w;
    RemoveLeading(pat, w);
    NotContainsLonger(w, pat);
    assert RemoveAll(x, pat) == w;
    var u := [pat[1]] + x;
    DiffersAt(u, pat, 0);
    KeepFirst(pat[1], x, pat);
    var v := [pat[0]] + u;
    DiffersAt(v, pat, 2);
    KeepFirst(pat[0], u, pat);
    RejoinShape(pat);
  }

  lemma RejoinShape(pat: string)
    requires |pat| >= 2
    ensures [pat[0]] + ([pat[1]] + (pat + pat[2..])) == pat[..2] + pat + pat[2..]
    ensures [pat[0]] + ([pat[1]] + pat[2..]) == pat
  {
    assert pat[..2] == [pat[0]] + [pat[1]];
  }

  lemma DiffersAt(s: string, pat: string, i: nat)
    requires i < |pat| && i < |s| && s[i] != pat[i]
    ensures !StartsWith(s, pat)
  {
    assert |pat| <= |s| ==> s[..|pat|][i] == s[i];
  }
}
