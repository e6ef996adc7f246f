/** The wallpaper generator (wallpaper.js): the device catalog, the
    generator's selection state, the two dot-grid layouts and the download
    file name. */
module Wallpaper {
  import opened Wrappers
  import opened Text
  import opened Calendar
  import opened Layout

  /** An entry of the device catalog: its key, its pixel size, its kind
      ("phone", "desktop" or "tablet") and its display name. */
  datatype Device = Device(key: string, width: int, height: int, kind: string, name: string)

  /** `DEVICES`, in the order of its keys. */
  const Devices: seq<Device> := [
    Device("1290x2796", 1290, 2796, "phone", "iPhone 15 Pro Max"),
    Device("1179x2556", 1179, 2556, "phone", "iPhone 15/14 Pro"),
    Device("1170x2532", 1170, 2532, "phone", "iPhone 14/13"),
    Device("1080x2400", 1080, 2400, "phone", "Android Standard"),
    Device("1440x3200", 1440, 3200, "phone", "Android Flagship"),
    Device("1080x2340", 1080, 2340, "phone", "Android Compact"),
    Device("1920x1080", 1920, 1080, "desktop", "Full HD"),
    Device("2560x1440", 2560, 1440, "desktop", "2K QHD"),
    Device("3840x2160", 3840, 2160, "desktop", "4K UHD"),
    Device("2048x2732", 2048, 2732, "tablet", "iPad Pro 12.9\""),
    Device("1640x2360", 1640, 2360, "tablet", "iPad Air")
  ]

  /** The keys of `THEMES`. */
  const ThemeKeys: seq<string> := ["midnight", "purple", "ocean", "matrix", "ruby", "sunset"]

  /** `DEVICES[key]`: the entry with that key, if any. */
  function FindDevice(devices: seq<Device>, key: string): (r: Option<Device>)
    ensures r.Some? ==> r.value in devices && r.value.key == key
    ensures r.None? ==> forall i :: 0 <= i < |devices| ==> devices[i].key != key
  {
    if devices == [] then None
    else if devices[0].key == key then Some(devices[0])
    else FindDevice(devices[1..], key)
  }

  /** The key of the first entry, in table order, whose kind is `kind`. */
  function FirstKeyOfKind(devices: seq<Device>, kind: string): (r: Option<string>)
    ensures r.None? <==> forall i :: 0 <= i < |devices| ==> devices[i].kind != kind
    ensures r.Some? ==> exists i :: 0 <= i < |devices| && devices[i].kind == kind && devices[i].key == r.value &&
                                    (forall j :: 0 <= j < i ==> devices[j].kind != kind)
  {
    if devices == [] then None
    else if devices[0].kind == kind then Some(devices[0].key)
    else
      var r := FirstKeyOfKind(devices[1..], kind);
      if r.Some? then
        var i :| 0 < i + 1 <= |devices[1..]| && devices[1..][i].kind == kind && devices[1..][i].key == r.value &&
          forall j :: 0 <= j < i ==> devices[1..][j].kind != kind;
        assert devices[i + 1].kind == kind && forall j :: 0 <= j < i + 1 ==> devices[j].kind != kind by {
          forall j | 0 <= j < i + 1 ensures devices[j].kind != kind {
            if j > 0 {
              assert devices[j] == devices[1..][j - 1];
            }
          }
        }
        r
      else r
  }

  /** When entry `i` is the first of its kind, its key is the one chosen. */
  lemma FirstKeyOfKindAt(devices: seq<Device>, kind: string, i: int)
    requires 0 <= i < |devices| && devices[i].kind == kind
    requires forall j :: 0 <= j < i ==> devices[j].kind != kind
    ensures FirstKeyOfKind(devices, kind) == Some(devices[i].key)
  {
    var r := FirstKeyOfKind(devices, kind);
    var i' :| 0 <= i' < |devices| && devices[i'].kind == kind && devices[i'].key == r.value &&
      forall j :: 0 <= j < i' ==> devices[j].kind != kind;
    assert i' == i;
  }

  /** The resolution a kind selects is one the catalog can look up, so a
      download after choosing a listed kind finds its device. */
  lemma FirstKeyIsListed(devices: seq<Device>, kind: string)
    ensures FirstKeyOfKind(devices, kind).Some? ==> FindDevice(devices, FirstKeyOfKind(devices, kind).value).Some?
  {
  }

  /** Choosing phones selects the iPhone 15 Pro Max resolution. */
  lemma FirstPhoneResolution()
    ensures FirstKeyOfKind(Devices, "phone") == Some("1290x2796")
  {
    FirstKeyOfKindAt(Devices, "phone", 0);
  }

  /** Choosing desktops selects Full HD. */
  lemma FirstDesktopResolution()
    ensures FirstKeyOfKind(Devices, "desktop") == Some("1920x1080")
  {
    assert forall j :: 0 <= j < 6 ==> Devices[j].kind == "phone";
    FirstKeyOfKindAt(Devices, "desktop", 6);
  }

  /** Choosing tablets selects the 12.9-inch iPad Pro. */
  lemma FirstTabletResolution()
    ensures FirstKeyOfKind(Devices, "tablet") == Some("2048x2732")
  {
    assert forall j :: 0 <= j < 9 ==> Devices[j].kind in {"phone", "desktop"};
    FirstKeyOfKindAt(Devices, "tablet", 9);
  }

  /** A kind the catalog does not list selects no resolution. */
  lemma UnknownKindHasNoResolution(kind: string)
    requires kind != "phone" && kind != "desktop" && kind != "tablet"
    ensures FirstKeyOfKind(Devices, kind) == None
  {
    assert forall j :: 0 <= j < |Devices| ==> Devices[j].kind in {"phone", "desktop", "tablet"};
  }

  // ----- The download file name -----

  /** `replace(/[^a-z0-9]/gi, '-')`: every character other than an ASCII
      letter or digit becomes a hyphen. */
  function ReplaceNonAlphanumeric(s: string): (r: string)
    ensures |r| == |s|
    ensures forall i :: 0 <= i < |s| ==> r[i] == if IsAsciiLetterOrDigit(s[i]) then s[i] else '-'
  {
    if s == [] then []
    else [if IsAsciiLetterOrDigit(s[0]) then s[0] else '-'] + ReplaceNonAlphanumeric(s[1..])
  }

  /** The device-name part of the download file name: hyphens for everything
      but letters and digits, then lower case. It keeps the length of the
      name, puts at each position the name's own letter or digit lower-cased
      or else a hyphen, is made of lower-case letters, digits and hyphens
      only, and has a hyphen exactly where the name has something other than
      a letter or digit. */
  function SanitizeDeviceName(name: string): (r: string)
    ensures |r| == |name|
    ensures forall i :: 0 <= i < |name| ==>
      r[i] == if IsAsciiLetterOrDigit(name[i]) then ToLowerAscii(name[i]) else '-'
    ensures forall i :: 0 <= i < |name| ==> IsFileNameChar(r[i])
    ensures forall i :: 0 <= i < |name| ==> (r[i] == '-' <==> !IsAsciiLetterOrDigit(name[i]))
  {
    LowerCase(ReplaceNonAlphanumeric(name))
  }

  predicate IsFileNameChar(c: char) {
    ('a' <= c <= 'z') || ('0' <= c <= '9') || c == '-'
  }

  /** Sanitising a sanitised name changes nothing. */
  lemma SanitizeIsIdempotent(name: string)
    ensures SanitizeDeviceName(SanitizeDeviceName(name)) == SanitizeDeviceName(name)
  {
    var r := SanitizeDeviceName(name);
    var rr := SanitizeDeviceName(r);
    forall i | 0 <= i < |name| ensures rr[i] == r[i] {
      assert ReplaceNonAlphanumeric(r)[i] == if IsAsciiLetterOrDigit(r[i]) then r[i] else '-';
    }
  }

  /** `life-calendar-<device name>-<theme>.png`: the fixed prefix, the
      sanitised device name, then a hyphen, the theme key and the extension. */
  function WallpaperFileName(deviceName: string, theme: string): (r: string)
    ensures |r| == 14 + |deviceName| + 1 + |theme| + 4
    ensures r[..14] == "life-calendar-"
    ensures r[14..14 + |deviceName|] == SanitizeDeviceName(deviceName)
    ensures forall i :: 14 <= i < 14 + |deviceName| ==> IsFileNameChar(r[i])
    ensures r[14 + |deviceName|..] == "-" + theme + ".png"
  {
    var device := SanitizeDeviceName(deviceName);
    var tail := "-" + theme + ".png";
    var r := "life-calendar-" + device + tail;
    assert r[14 + |deviceName|..] == tail;
    assert r[14..14 + |deviceName|] == device;
    r
  }

  lemma PhoneNameReplaced(name: string)
    requires name == "iPhone 15 Pro Max"
    ensures ReplaceNonAlphanumeric(name) == "iPhone-15-Pro-Max"
  {
    var replaced := ReplaceNonAlphanumeric(name);
    assert replaced == [replaced[0], replaced[1], replaced[2], replaced[3], replaced[4], replaced[5],
                        replaced[6], replaced[7], replaced[8], replaced[9], replaced[10], replaced[11],
                        replaced[12], replaced[13], replaced[14], replaced[15], replaced[16]];
    assert replaced[0] == 'i' && replaced[1] == 'P' && replaced[2] == 'h' && replaced[3] == 'o';
    assert replaced[4] == 'n' && replaced[5] == 'e' && replaced[6] == '-' && replaced[7] == '1';
    assert replaced[8] == '5' && replaced[9] == '-' && replaced[10] == 'P' && replaced[11] == 'r';
    assert replaced[12] == 'o' && replaced[13] == '-' && replaced[14] == 'M' && replaced[15] == 'a';
    assert replaced[16] == 'x';
  }

  lemma PhoneNameLowered(name: string)
    requires name == "iPhone-15-Pro-Max"
    ensures LowerCase(name) == "iphone-15-pro-max"
  {
    var lowered := LowerCase(name);
    assert lowered == [lowered[0], lowered[1], lowered[2], lowered[3], lowered[4], lowered[5],
                       lowered[6], lowered[7], lowered[8], lowered[9], lowered[10], lowered[11],
                       lowered[12], lowered[13], lowered[14], lowered[15], lowered[16]];
    assert lowered[0] == 'i' && lowered[1] == 'p' && lowered[2] == 'h' && lowered[3] == 'o';
    assert lowered[4] == 'n' && lowered[5] == 'e' && lowered[6] == '-' && lowered[7] == '1';
    assert lowered[8] == '5' && lowered[9] == '-' && lowered[10] == 'p' && lowered[11] == 'r';
    assert lowered[12] == 'o' && lowered[13] == '-' && lowered[14] == 'm' && lowered[15] == 'a';
    assert lowered[16] == 'x';
  }

  /** The first catalog entry, "iPhone 15 Pro Max", becomes `iphone-15-pro-max`. */
  lemma PhoneNameSanitised()
    ensures SanitizeDeviceName(Devices[0].name) == "iphone-15-pro-max"
  {
    PhoneNameReplaced(Devices[0].name);
    PhoneNameLowered(ReplaceNonAlphanumeric(Devices[0].name));
  }

  lemma TabletNameReplaced(name: string)
    requires name == "iPad Pro 12.9\""
    ensures ReplaceNonAlphanumeric(name) == "iPad-Pro-12-9-"
  {
    var replaced := ReplaceNonAlphanumeric(name);
    assert replaced == [replaced[0], replaced[1], replaced[2], replaced[3], replaced[4], replaced[5],
                        replaced[6], replaced[7], replaced[8], replaced[9], replaced[10], replaced[11],
                        replaced[12], replaced[13]];
    assert replaced[0] == 'i' && replaced[1] == 'P' && replaced[2] == 'a' && replaced[3] == 'd';
    assert replaced[4] == '-' && replaced[5] == 'P' && replaced[6] == 'r' && replaced[7] == 'o';
    assert replaced[8] == '-' && replaced[9] == '1' && replaced[10] == '2' && replaced[11] == '-';
    assert replaced[12] == '9' && replaced[13] == '-';
  }

  lemma TabletNameLowered(name: string)
    requires name == "iPad-Pro-12-9-"
    ensures LowerCase(name) == "ipad-pro-12-9-"
  {
    var lowered := LowerCase(name);
    assert lowered == [lowered[0], lowered[1], lowered[2], lowered[3], lowered[4], lowered[5],
                       lowered[6], lowered[7], lowered[8], lowered[9], lowered[10], lowered[11],
                       lowered[12], lowered[13]];
    assert lowered[0] == 'i' && lowered[1] == 'p' && lowered[2] == 'a' && lowered[3] == 'd';
    assert lowered[4] == '-' && lowered[5] == 'p' && lowered[6] == 'r' && lowered[7] == 'o';
    assert lowered[8] == '-' && lowered[9] == '1' && lowered[10] == '2' && lowered[11] == '-';
    assert lowered[12] == '9' && lowered[13] == '-';
  }

  /** The catalog's `iPad Pro 12.9"` becomes `ipad-pro-12-9-`: the quote mark
      turns into a trailing hyphen. */
  lemma TabletNameSanitised()
    ensures SanitizeDeviceName(Devices[9].name) == "ipad-pro-12-9-"
  {
    TabletNameReplaced(Devices[9].name);
    TabletNameLowered(ReplaceNonAlphanumeric(Devices[9].name));
  }

  /** The midnight wallpaper for the iPhone 15 Pro Max. */
  lemma PhoneFileName(name: string, theme: string)
    requires name == "iPhone 15 Pro Max" && theme == "midnight"
    ensures WallpaperFileName(name, theme) == "life-calendar-" + "iphone-15-pro-max" + "-" + "midnight" + ".png"
  {
    PhoneNameReplaced(name);
    PhoneNameLowered(ReplaceNonAlphanumeric(name));
  }

  // ----- The generator -----

  /** The dot grid of one layout: columns, rows, dot size and gap, the
      centred offset (horizontal for the phone layout, vertical for the
      desktop layout), the dots, and the days left in the year. */
  datatype WallpaperGrid = WallpaperGrid(cols: int, rows: int, dotSize: int, dotGap: int, start: real,
                                         dots: seq<Dot<Cell>>, daysLeft: int)

  /** A full-resolution download: canvas size and file name. */
  datatype WallpaperDownload = WallpaperDownload(width: int, height: int, fileName: string)

  class WallpaperGenerator {
    var currentTheme: string
    var currentResolution: string
    var currentDevice: string
    const today: Date
    const year: int
    const dayOfYear: int
    const totalDays: int

    ghost predicate Valid() {
      ValidDate(today) && year == today.year && dayOfYear == Ordinal(today) &&
      totalDays == DaysInYear(year) && 1 <= dayOfYear <= totalDays
    }

    /** A generator opened at `now`: the midnight theme and the iPhone 15 Pro
        Max resolution selected. */
    constructor (now: Instant)
      requires ValidInstant(now)
      ensures Valid() && today == now.date && dayOfYear == GetDayOfYear(now)
      ensures currentTheme == "midnight" && currentResolution == "1290x2796" && currentDevice == "phone"
    {
      currentTheme := "midnight";
      currentResolution := "1290x2796";
      currentDevice := "phone";
      today := now.date;
      year := now.date.year;
      dayOfYear := GetDayOfYear(now);
      totalDays := DaysInYear(now.date.year);
    }

    /** `loadTheme`: the saved theme, or midnight when nothing (or the empty
        string) is saved. */
    method LoadTheme(saved: Option<string>)
      modifies this`currentTheme
      ensures currentTheme == if saved.None? || saved.value == "" then "midnight" else saved.value
    {
      if saved.None? || saved.value == "" {
        currentTheme := "midnight";
      } else {
        currentTheme := saved.value;
      }
    }

    /** `updateResolutionOptions`: select the first catalog entry of the
        current device kind; with no such entry the resolution stays. */
    method UpdateResolutionOptions()
      modifies this`currentResolution
      ensures currentResolution ==
        if FirstKeyOfKind(Devices, currentDevice).Some? then FirstKeyOfKind(Devices, currentDevice).value
        else old(currentResolution)
    {
      var i := 0;
      while i < |Devices|
        invariant 0 <= i <= |Devices|
        invariant forall j :: 0 <= j < i ==> Devices[j].kind != currentDevice
        invariant currentResolution == old(currentResolution)
      {
        if Devices[i].kind == currentDevice {
          currentResolution := Devices[i].key;
          FirstKeyOfKindAt(Devices, currentDevice, i);
          break;
        }
        i := i + 1;
      }
    }

    /** A click on a device button: that kind becomes current and its first
        resolution is selected. */
    method SelectDevice(device: string)
      modifies this`currentDevice, this`currentResolution
      ensures currentDevice == device
      ensures currentResolution ==
        if FirstKeyOfKind(Devices, device).Some? then FirstKeyOfKind(Devices, device).value
        else old(currentResolution)
    {
      currentDevice := device;
      UpdateResolutionOptions();
    }

    /** A change of the resolution select. */
    method SelectResolution(key: string)
      modifies this`currentResolution
      ensures currentResolution == key
    {
      currentResolution := key;
    }

    /** A click on a theme button. */
    method SelectTheme(theme: string)
      modifies this`currentTheme
      ensures currentTheme == theme
    {
      currentTheme := theme;
    }

    /** The dot loop of both layouts: day `i + 1` goes to cell
        `(i / cols, i % cols)` and is classified against today. */
    method PaintGrid(cols: int) returns (dots: seq<Dot<Cell>>)
      requires Valid() && cols > 0
      ensures |dots| == totalDays && ClassifiedDots(dots, dayOfYear)
      ensures forall k :: 0 <= k < |dots| ==>
        dots[k].place == CellOf(k, cols) && dots[k].place.row < GridRows(totalDays, cols)
      ensures CountState(dots, Today) == 1 && CountState(dots, Completed) == dayOfYear - 1
    {
      dots := [];
      for i := 0 to totalDays
        invariant |dots| == i && ClassifiedDots(dots, dayOfYear)
        invariant forall k :: 0 <= k < i ==> dots[k].place == CellOf(k, cols)
      {
        var dayNum := i + 1;
        var col := i % cols;
        var row := i / cols;
        dots := dots + [Dot(dayNum, Cell(row, col), Classify(dayNum, dayOfYear))];
      }
      forall k | 0 <= k < |dots| ensures dots[k].place.row < GridRows(totalDays, cols) {
        CellInsideGrid(k, totalDays, cols);
      }
      ClassificationCounts(dots, dayOfYear);
    }

    /** `renderPhoneLayout` (phones and tablets): 14 columns, centred
        horizontally on a canvas `w` pixels wide. */
    method RenderPhoneLayout(w: int, dotSize: nat) returns (grid: WallpaperGrid)
      requires Valid()
      ensures grid.cols == 14 && grid.rows == GridRows(totalDays, 14) == 27
      ensures grid.dotSize == dotSize && grid.dotGap == DotGap(dotSize)
      ensures 2.0 * grid.start + GridSpan(14, dotSize, grid.dotGap) as real == w as real
      ensures forall c :: 0 <= c < 14 ==>
        DotCentre(grid.start, c, dotSize, grid.dotGap) + DotCentre(grid.start, 13 - c, dotSize, grid.dotGap) == w as real
      ensures |grid.dots| == totalDays && ClassifiedDots(grid.dots, dayOfYear)
      ensures forall k :: 0 <= k < |grid.dots| ==> grid.dots[k].place == CellOf(k, 14)
      ensures grid.daysLeft + dayOfYear == totalDays && grid.daysLeft >= 0
    {
      var gridCols := 14;
      var gridRows := GridRows(totalDays, gridCols);
      var dotGap := DotGap(dotSize);
      var gridWidth := GridSpan(gridCols, dotSize, dotGap);
      var startX := CentredStart(w, gridWidth);
      forall c | 0 <= c < 14
        ensures DotCentre(startX, c, dotSize, dotGap) + DotCentre(startX, 13 - c, dotSize, dotGap) == w as real
      {
        CentredGridIsSymmetric(w, gridCols, dotSize, dotGap, c);
      }
      CentredGridIsSymmetric(w, gridCols, dotSize, dotGap, 0);
      YearGridRows(totalDays);
      var dots := PaintGrid(gridCols);
      grid := WallpaperGrid(gridCols, gridRows, dotSize, dotGap, startX, dots, totalDays - dayOfYear);
    }

    /** `renderDesktopLayout`: 30 columns, the grid centred vertically on a
        canvas `h` pixels high. */
    method RenderDesktopLayout(h: int, dotSize: nat) returns (grid: WallpaperGrid)
      requires Valid()
      ensures grid.cols == 30 && grid.rows == GridRows(totalDays, 30) == 13
      ensures grid.dotSize == dotSize && grid.dotGap == DotGap(dotSize)
      ensures 2.0 * grid.start + GridSpan(13, dotSize, grid.dotGap) as real == h as real
      ensures forall r :: 0 <= r < 13 ==>
        DotCentre(grid.start, r, dotSize, grid.dotGap) + DotCentre(grid.start, 12 - r, dotSize, grid.dotGap) == h as real
      ensures |grid.dots| == totalDays && ClassifiedDots(grid.dots, dayOfYear)
      ensures forall k :: 0 <= k < |grid.dots| ==> grid.dots[k].place == CellOf(k, 30)
      ensures grid.daysLeft + dayOfYear == totalDays && grid.daysLeft >= 0
    {
      var gridCols := 30;
      var gridRows := GridRows(totalDays, gridCols);
      YearGridRows(totalDays);
      var dotGap := DotGap(dotSize);
      var gridHeight := GridSpan(gridRows, dotSize, dotGap);
      var startY := CentredStart(h, gridHeight);
      forall r | 0 <= r < 13
        ensures DotCentre(startY, r, dotSize, dotGap) + DotCentre(startY, 12 - r, dotSize, dotGap) == h as real
      {
        CentredGridIsSymmetric(h, gridRows, dotSize, dotGap, r);
      }
      CentredGridIsSymmetric(h, gridRows, dotSize, dotGap, 0);
      var dots := PaintGrid(gridCols);
      grid := WallpaperGrid(gridCols, gridRows, dotSize, dotGap, startY, dots, totalDays - dayOfYear);
    }

    /** `renderWallpaper`: phones and tablets get the vertical layout, every
        other kind the desktop layout. */
    method RenderWallpaper(w: int, h: int, kind: string, dotSize: nat) returns (grid: WallpaperGrid)
      requires Valid()
      ensures grid.cols == if kind == "phone" || kind == "tablet" then 14 else 30
      ensures |grid.dots| == totalDays && ClassifiedDots(grid.dots, dayOfYear)
      ensures grid.daysLeft == totalDays - dayOfYear
    {
      if kind == "phone" || kind == "tablet" {
        grid := RenderPhoneLayout(w, dotSize);
      } else {
        grid := RenderDesktopLayout(h, dotSize);
      }
    }

    /** `downloadWallpaper`: a canvas of the selected device's full size and
        the file name. An unknown resolution key or theme makes the script
        fail instead (the lookup yields `undefined`). */
    method DownloadWallpaper() returns (download: Option<WallpaperDownload>)
      ensures download.Some? <==> FindDevice(Devices, currentResolution).Some? && currentTheme in ThemeKeys
      ensures download.Some? ==>
        var device := FindDevice(Devices, currentResolution).value;
        download.value == WallpaperDownload(device.width, device.height, WallpaperFileName(device.name, currentTheme))
    {
      var device := FindDevice(Devices, currentResolution);
      if device.None? || currentTheme !in ThemeKeys {
        return None;
      }
      var fileName := WallpaperFileName(device.value.name, currentTheme);
      download := Some(WallpaperDownload(device.value.width, device.value.height, fileName));
    }
  }
}
