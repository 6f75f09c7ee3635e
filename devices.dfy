/**
  * Device discovery and the per-device choices made before any stage runs:
  * the serial list read from `adb devices`, the Galaxy series looked up
  * from the serial map, and the wallpaper chosen for that series.
  */
module Devices {
  import opened Wrappers
  import opened PyStr
  import opened Seqs
  import opened Adb

  /** `adb devices`. */
  const ADB_DEVICES: Argv := ["adb", "devices"]

  /** One line after the header: a serial when the stripped line is exactly two tab-separated fields, the second `device`. */
  function DeviceEntry(line: string): Option<string> {
    var parts := Split(Strip(line), "\t");
    if |parts| == 2 && parts[1] == "device" then Some(parts[0]) else None
  }

  /** The list `get_connected_devices` returns for the text `adb devices` printed: the first line is the header. */
  function ConnectedSerials(output: string): seq<string> {
    var lines := SplitLines(Strip(output));
    if lines == [] then [] else FilterMap(DeviceEntry, lines[1..])
  }

  /** A line yields a serial exactly when, once stripped, it is that serial, a tab, and `device`. */
  lemma DeviceEntryIff(line: string, serial: string)
    ensures DeviceEntry(line) == Some(serial) <==> Strip(line) == serial + "\tdevice" && '\t' !in serial
  {
    var s := Strip(line);
    var parts := Split(s, "\t");
    assert DeviceEntry(line) == Some(serial) <==> |parts| == 2 && parts[1] == "device" && parts[0] == serial;
    TwoFieldsIff(s, serial, "device");
    TabDevice(serial);
  }

  lemma TabDevice(serial: string)
    ensures serial + "\tdevice" == serial + "\t" + "device"
  {
  }

  /** The two-field case of `split('\t')`, in the terms `DeviceEntry` tests. */
  lemma TwoFieldsIff(s: string, a: string, b: string)
    requires '\t' !in b
    ensures (var parts := Split(s, "\t"); |parts| == 2 && parts[0] == a && parts[1] == b) <==>
      s == a + "\t" + b && '\t' !in a
  {
    var parts := Split(s, "\t");
    assert "\t" == ['\t'];
    SplitTwoFields(s, '\t', a, b);
    if |parts| == 2 && parts[0] == a && parts[1] == b {
      assert parts == [a, b];
    }
  }

  /** Lines in another state (`unauthorized`, `offline`, ...) yield nothing. */
  lemma OtherStateSkipped(serial: string, state: string)
    requires '\t' !in serial && '\t' !in state && state != "device"
    requires Strip(serial + "\t" + state) == serial + "\t" + state
    ensures DeviceEntry(serial + "\t" + state) == None
  {
    var line := serial + "\t" + state;
    assert line == serial + ['\t'] + state;
    SplitTwoFields(line, '\t', serial, state);
  }

  /**
    * The header line is never read as a device: a serial is listed exactly
    * when some line after the first yields it.
    */
  lemma ConnectedSerialsMembers(output: string, serial: string)
    requires SplitLines(Strip(output)) != []
    ensures serial in ConnectedSerials(output) <==>
      exists i :: 0 <= i < |SplitLines(Strip(output))[1..]| && DeviceEntry(SplitLines(Strip(output))[1..][i]) == Some(serial)
  {
    FilterMapMembers(DeviceEntry, SplitLines(Strip(output))[1..], serial);
  }

  /** `get_connected_devices` on the text `adb devices` printed: the first line is the header. */
  method ParseDeviceList(output: string) returns (devices: seq<string>)
    ensures devices == ConnectedSerials(output)
  {
    var lines := SplitLines(Strip(output));
    if lines == [] {
      devices := [];
    } else {
      devices := Collect(DeviceEntry, lines[1..]);
    }
  }

  /** `get_connected_devices`: `None` when `adb devices` exits non-zero and `check_output` raises. */
  method GetConnectedDevices(b: Bridge) returns (devices: Option<seq<string>>)
    modifies b
    ensures b.trace == old(b.trace) + [ADB_DEVICES]
    ensures devices == match Checked(b.world.respond(old(b.trace), ADB_DEVICES))
      case None => None
      case Some(output) => Some(ConnectedSerials(output))
  {
    var output := b.CheckOutput(ADB_DEVICES);
    if output.None? {
      devices := None;
    } else {
      var serials := ParseDeviceList(output.value);
      devices := Some(serials);
    }
  }

  // ---------------------------------------------------------------------
  // The listing format, and the parser read back against it
  // ---------------------------------------------------------------------

  /** One device line of the listing: serial, a tab, and the connection state. */
  datatype DeviceLine = DeviceLine(serial: string, state: string)

  /** A device line as printed. */
  function EntryLine(e: DeviceLine): string {
    e.serial + "\t" + e.state
  }

  /** The device lines, each preceded by a newline. */
  function ListingBody(entries: seq<DeviceLine>): string {
    if entries == [] then ""
    else "\n" + EntryLine(entries[0]) + ListingBody(entries[1..])
  }

  /** The device lines without their newlines. */
  function EntryLines(entries: seq<DeviceLine>): (lines: seq<string>)
    ensures |lines| == |entries|
  {
    if entries == [] then [] else [EntryLine(entries[0])] + EntryLines(entries[1..])
  }

  /** The serials of the lines in state `device`, in listing order. */
  function Ready(entries: seq<DeviceLine>): seq<string> {
    if entries == [] then []
    else if entries[0].state == "device" then [entries[0].serial] + Ready(entries[1..])
    else Ready(entries[1..])
  }

  /** No line boundary inside. */
  predicate OneLine(s: string) {
    forall i {:trigger IsLineBreak(s[i])} :: 0 <= i < |s| ==> !IsLineBreak(s[i])
  }

  /** A field of a device line as `adb` prints it: non-empty, no tab or line boundary, no surrounding whitespace. */
  predicate Field(s: string) {
    s != [] && '\t' !in s && OneLine(s) && !IsSpace(s[0]) && !IsSpace(s[|s| - 1])
  }

  predicate WellFormedEntry(e: DeviceLine) {
    Field(e.serial) && Field(e.state)
  }

  predicate WellFormed(entries: seq<DeviceLine>) {
    forall i :: 0 <= i < |entries| ==> WellFormedEntry(entries[i])
  }

  /** A well-formed device line is one line and has nothing for `strip()` to remove. */
  lemma EntryLineShape(e: DeviceLine)
    requires WellFormedEntry(e)
    ensures OneLine(EntryLine(e)) && EntryLine(e) != []
    ensures Strip(EntryLine(e)) == EntryLine(e)
  {
    var line := EntryLine(e);
    OneLineAppend(e.serial, "\t");
    OneLineAppend(e.serial + "\t", e.state);
    assert line[0] == e.serial[0];
    LastOfAppend(e.serial + "\t", e.state);
    StripTrimmed(line);
  }

  /** Two texts without line boundaries joined give one line. */
  lemma OneLineAppend(a: string, b: string)
    requires OneLine(a) && OneLine(b)
    ensures OneLine(a + b)
  {
    forall i | 0 <= i < |a + b|
      ensures !IsLineBreak((a + b)[i])
    {
      if i < |a| {
        assert (a + b)[i] == a[i];
      } else {
        assert (a + b)[i] == b[i - |a|];
      }
    }
  }

  /** A well-formed device line yields its serial exactly when its state is `device`. */
  lemma EntryLineRead(e: DeviceLine)
    requires WellFormedEntry(e)
    ensures DeviceEntry(EntryLine(e)) == if e.state == "device" then Some(e.serial) else None
  {
    EntryLineShape(e);
    if e.state == "device" {
      DeviceEntryIff(EntryLine(e), e.serial);
    } else {
      OtherStateSkipped(e.serial, e.state);
    }
  }

  /** Dropping the first device line keeps a listing well formed. */
  lemma WellFormedTail(entries: seq<DeviceLine>)
    requires entries != [] && WellFormed(entries)
    ensures WellFormedEntry(entries[0]) && WellFormed(entries[1..])
  {
    forall i | 0 <= i < |entries[1..]|
      ensures WellFormedEntry(entries[1..][i])
    {
      assert entries[1..][i] == entries[i + 1];
    }
  }

  /** The lines `splitlines()` sees in a header followed by the device lines. */
  lemma {:induction false} ListingLines(first: string, entries: seq<DeviceLine>)
    requires first != [] && OneLine(first) && WellFormed(entries)
    ensures SplitLines(first + ListingBody(entries)) == [first] + EntryLines(entries)
    decreases |entries|
  {
    if entries == [] {
      assert first + ListingBody(entries) == first;
      SplitLinesSingle(first);
    } else {
      WellFormedTail(entries);
      EntryLineShape(entries[0]);
      ListingLines(EntryLine(entries[0]), entries[1..]);
      ListingLinesStep(first, entries);
    }
  }

  /** One device line more after the first line. */
  lemma ListingLinesStep(first: string, entries: seq<DeviceLine>)
    requires first != [] && OneLine(first) && entries != []
    requires SplitLines(EntryLine(entries[0]) + ListingBody(entries[1..])) == [EntryLine(entries[0])] + EntryLines(entries[1..])
    ensures SplitLines(first + ListingBody(entries)) == [first] + EntryLines(entries)
  {
    var rest := EntryLine(entries[0]) + ListingBody(entries[1..]);
    ListingBodyCons(first, entries);
    SplitLinesCons(first, rest);
  }

  /** The text after the first line: a newline, then the first device line and the rest of the body. */
  lemma ListingBodyCons(first: string, entries: seq<DeviceLine>)
    requires entries != []
    ensures first + ListingBody(entries) == first + "\n" + (EntryLine(entries[0]) + ListingBody(entries[1..]))
  {
    var line, body := EntryLine(entries[0]), ListingBody(entries[1..]);
    assert ListingBody(entries) == "\n" + line + body;
    assert "\n" + line + body == "\n" + (line + body);
  }

  /** Reading the device lines keeps the serials in state `device`, in order. */
  lemma {:induction false} ReadyLines(entries: seq<DeviceLine>)
    requires WellFormed(entries)
    ensures FilterMap(DeviceEntry, EntryLines(entries)) == Ready(entries)
    decreases |entries|
  {
    if entries != [] {
      WellFormedTail(entries);
      EntryLineRead(entries[0]);
      ReadyLines(entries[1..]);
      assert EntryLines(entries) == [EntryLine(entries[0])] + EntryLines(entries[1..]);
      assert EntryLines(entries)[1..] == EntryLines(entries[1..]);
    }
  }

  /** The last character of the listing without its trailer. */
  lemma {:induction false} ListingEnd(header: string, entries: seq<DeviceLine>)
    requires header != [] && !IsSpace(header[|header| - 1]) && WellFormed(entries)
    ensures var s := header + ListingBody(entries); s != [] && !IsSpace(s[|s| - 1])
    decreases |entries|
  {
    if entries == [] {
      assert header + ListingBody(entries) == header;
    } else {
      WellFormedTail(entries);
      ListingEnd(entries[0].state, entries[1..]);
      ListingEndStep(header, entries);
    }
  }

  /** The listing ends where its last device line ends. */
  lemma ListingEndStep(header: string, entries: seq<DeviceLine>)
    requires entries != [] && entries[0].state + ListingBody(entries[1..]) != []
    ensures var s := header + ListingBody(entries); var t := entries[0].state + ListingBody(entries[1..]);
      s != [] && s[|s| - 1] == t[|t| - 1]
  {
    var e := entries[0];
    var body := ListingBody(entries[1..]);
    ListingBodyCons(header, entries);
    LastOfAppend(header + "\n", EntryLine(e) + body);
    EntryLineLast(e, body);
  }

  /** A device line followed by more text ends where its state and that text end. */
  lemma EntryLineLast(e: DeviceLine, body: string)
    requires e.state + body != []
    ensures var t := EntryLine(e) + body; var u := e.state + body; t[|t| - 1] == u[|u| - 1]
  {
    assert EntryLine(e) + body == (e.serial + "\t") + (e.state + body);
    LastOfAppend(e.serial + "\t", e.state + body);
  }

  lemma LastOfAppend(a: string, b: string)
    requires b != []
    ensures (a + b)[|a + b| - 1] == b[|b| - 1]
  {
  }

  /**
    * Reading back a listing as `adb devices` prints it — a header line,
    * one line per device, then blank padding — gives the serials in state
    * `device`, in order; the header is skipped.
    */
  lemma ReadListing(header: string, entries: seq<DeviceLine>, trailer: string)
    requires Field(header) && WellFormed(entries)
    requires Blank(trailer)
    ensures ConnectedSerials(header + ListingBody(entries) + trailer) == Ready(entries)
  {
    var core := header + ListingBody(entries);
    ListingEnd(header, entries);
    StripPadded([], core, trailer);
    assert [] + core + trailer == core + trailer;
    ListingLines(header, entries);
    ReadyLines(entries);
    var lines := SplitLines(core);
    assert lines[1..] == EntryLines(entries);
  }

  // ---------------------------------------------------------------------
  // Series and wallpaper
  // ---------------------------------------------------------------------

  /** The series that ship a bundled wallpaper. */
  const SUPPORTED_SERIES: seq<string> := ["S23", "S24", "S25"]

  /** The series assumed when the serial map is unreadable or has no entry for the serial. */
  const DEFAULT_SERIES: string := "S24"

  /**
    * `detect_series_from_serial` with the serial map already loaded: `None`
    * stands for a map file that could not be opened or parsed.
    */
  function DetectSeries(mapping: Option<map<string, string>>, serial: string): (series: string)
    ensures mapping.Some? && serial in mapping.value ==> series == mapping.value[serial]
    ensures mapping.None? || serial !in mapping.value ==> series == DEFAULT_SERIES
  {
    match mapping
    case None => DEFAULT_SERIES
    case Some(m) => if serial in m then m[serial] else DEFAULT_SERIES
  }

  /** The wallpaper file chosen for a series in `process_device`. */
  function WallpaperFor(series: string): (file: string)
    ensures file in {"S23.png", "S24.png", "S25.png"}
  {
    if series in SUPPORTED_SERIES then
      assert "S23" + ".png" == "S23.png" && "S24" + ".png" == "S24.png" && "S25" + ".png" == "S25.png";
      series + ".png"
    else "S24.png"
  }

  /**
    * The wallpaper is named after the series exactly for the three supported
    * series; every other series, mapped or not, gets `S24.png`.
    */
  lemma WallpaperIff(series: string)
    ensures WallpaperFor(series) == series + ".png" <==> series in SUPPORTED_SERIES
    ensures series !in SUPPORTED_SERIES ==> WallpaperFor(series) == "S24.png"
  {
    if series !in SUPPORTED_SERIES {
      var named := series + ".png";
      assert named[..|series|] == series;
      if |series| == 3 {
        assert series != "S24";
        assert named[..3] != "S24.png"[..3];
      }
    }
  }

  /** A serial the map does not know, or an unreadable map, gets the S24 series and its wallpaper. */
  lemma UnmappedSerialDefaults(mapping: Option<map<string, string>>, serial: string)
    requires mapping.None? || serial !in mapping.value
    ensures DetectSeries(mapping, serial) == "S24"
    ensures WallpaperFor(DetectSeries(mapping, serial)) == "S24.png"
  {
  }
}
