/** main.go's disk record and `getDiskInfo`, which fills it in place from what
    the storage library and sysfs report, and the way `listDisks` reuses one
    record for every device it lists. */
module DiskInfo {
  import opened GoInts
  import opened GoStrconv
  import opened LsmText
  import opened Leds

  /** Everything `getDiskInfo` learns about one device path from its collaborators,
      each already collapsed to Go's zero value where the read failed.
      `pathNotExist` is `os.IsNotExist` of `os.Stat(devPath)`; the strings from
      sysfs are the trimmed file contents, or "" when the file cannot be read. */
  datatype Probe = Probe(
    pathNotExist: bool,
    serialNumber: string,
    sizeText: string,
    model: string,
    vendor: string,
    wwid: string,
    rev: string,
    physicalBlockSize: string,
    logicalBlockSize: string,
    health: DiskHealthStatus,
    rpm: Int32,
    vpd83: string,
    linkSpeed: Uint32,
    linkType: DiskLinkType,
    ledStatus: nat)

  /** The value of main.go's `disk` struct. */
  datatype DiskRecord = DiskRecord(
    devPath: string,
    devType: string,
    serialNumber: string,
    vpd83: string,
    sizeBytes: Int64,
    sizeSectors: Int64,
    transport: string,
    linkSpeed: Uint32,
    rpm: Int32,
    ledIdent: string,
    ledFail: string,
    health: string,
    model: string,
    revision: string,
    vendor: string,
    wwid: string,
    sectorFormat: string)

  /** Go's zero value of `disk`. */
  const ZeroRecord: DiskRecord :=
    DiskRecord("", "", "", "", 0, 0, "", 0, 0, "", "", "", "", "", "", "", "")

  /** Sector format from the logical and physical block-size texts. */
  function SectorFormat(logical: string, physical: string): (f: string)
    ensures f == "512" <==> logical == physical && logical == "512"
    ensures f == "4KN" <==> logical == physical && logical != "512"
    ensures f == "512e" <==> logical != physical
  {
    if logical == physical then
      if logical == "512" then "512" else "4KN"
    else "512e"
  }

  /** Bytes per sector used for the size: the parsed logical block size for
      "4KN", a fixed 512 for every other format. A short logical block-size text
      that is not a number therefore makes a "4KN" sector 0 bytes. */
  function SectorBytes(sectorFormat: string, logical: string): (n: Int64)
    ensures sectorFormat != "4KN" ==> n == 512
    ensures sectorFormat == "4KN" ==> n == ParseInt(logical)
    ensures sectorFormat == "4KN" && |logical| <= 19 && !IsDecimalText(logical) ==> n == 0
  {
    if sectorFormat == "4KN" then
      if |logical| <= 19 && !IsDecimalText(logical) then
        MalformedShortTextParsesToZero(logical);
        ParseInt(logical)
      else ParseInt(logical)
    else 512
  }

  /** Device class from the rotational speed. */
  function DevType(rpm: Int32): (t: string)
    ensures t == "Flash" <==> rpm == 0
    ensures t == "HDD" <==> rpm != 0
  {
    if rpm == 0 then "Flash" else "HDD"
  }

  /** The record `getDiskInfo` leaves behind for a device path that exists.
      Each computed text takes one of the values the source writes. */
  function Derive(devPath: string, p: Probe): (r: DiskRecord)
    ensures r.sectorFormat in {"512", "4KN", "512e"}
    ensures r.devType in {"Flash", "HDD"}
    ensures r.ledIdent in {"Unavailable", "ON", "OFF", "UNKNOWN"}
    ensures r.ledFail in {"Unavailable", "ON", "OFF", "UNKNOWN"}
  {
    var sizeSectors := ParseInt(p.sizeText);
    var sectorFormat := SectorFormat(p.logicalBlockSize, p.physicalBlockSize);
    var leds := LedTexts(p.ledStatus);
    DiskRecord(
      devPath := devPath,
      devType := DevType(p.rpm),
      serialNumber := p.serialNumber,
      vpd83 := p.vpd83,
      sizeBytes := MulInt64(sizeSectors, SectorBytes(sectorFormat, p.logicalBlockSize)),
      sizeSectors := sizeSectors,
      transport := LinkText(p.linkType),
      linkSpeed := p.linkSpeed,
      rpm := p.rpm,
      ledIdent := leds.0,
      ledFail := leds.1,
      health := HealthText(p.health),
      model := p.model,
      revision := p.rev,
      vendor := p.vendor,
      wwid := p.wwid,
      sectorFormat := sectorFormat)
  }

  /** The `disk` variable of `listDisks`, whose address `getDiskInfo` receives:
      a mutable location holding one `disk` struct value. Each assignment
      `disk.f = v` of the source replaces field `f` of `value`. */
  class Disk {
    var value: DiskRecord

    /** `var disk disk`: every field at Go's zero value. */
    constructor ()
      ensures value == ZeroRecord
    {
      value := ZeroRecord;
    }

    /** `getDiskInfo(devPath, &disk)`. A path that does not exist returns the
        "Device path not found" error before any field is written; otherwise
        every field is overwritten from what the collaborators report and nil
        is returned. */
    method GetDiskInfo(devPath: string, probe: Probe) returns (err: GoError)
      modifies this
      ensures probe.pathNotExist ==> err == Error("Device path not found") && value == old(value)
      ensures !probe.pathNotExist ==> err == Nil && value == Derive(devPath, probe)
    {
      if probe.pathNotExist {
        return Error("Device path not found");
      }
      value := value.(devPath := devPath);
      value := value.(serialNumber := probe.serialNumber);
      value := value.(sizeSectors := ParseInt(probe.sizeText));
      value := value.(model := probe.model);
      value := value.(vendor := probe.vendor);
      value := value.(wwid := probe.wwid);
      value := value.(revision := probe.rev);
      var physicalSector := probe.physicalBlockSize;
      var logicalSector := probe.logicalBlockSize;
      SetGeometry(logicalSector, physicalSector);
      value := value.(health := HealthText(probe.health));
      value := value.(rpm := probe.rpm);
      SetDevType();
      value := value.(vpd83 := probe.vpd83);
      value := value.(linkSpeed := probe.linkSpeed);
      value := value.(transport := LinkText(probe.linkType));
      var ledStatus := probe.ledStatus;
      SetLeds(ledStatus);
      return Nil;
    }

    /** The sector format from the two block-size texts, then the size in bytes
        from the sector count already stored, both written in place. */
    method SetGeometry(logicalSector: string, physicalSector: string)
      modifies this
      ensures value == old(value).(
        sectorFormat := SectorFormat(logicalSector, physicalSector),
        sizeBytes := MulInt64(old(value).sizeSectors,
                              SectorBytes(SectorFormat(logicalSector, physicalSector), logicalSector)))
    {
      if logicalSector == physicalSector {
        if logicalSector == "512" {
          value := value.(sectorFormat := "512");
        } else {
          value := value.(sectorFormat := "4KN");
        }
      } else {
        value := value.(sectorFormat := "512e");
      }
      if value.sectorFormat == "4KN" {
        var logicalSectorInt := ParseInt(logicalSector);
        value := value.(sizeBytes := MulInt64(value.sizeSectors, logicalSectorInt));
      } else {
        value := value.(sizeBytes := MulInt64(value.sizeSectors, 512));
      }
    }

    /** The device class from the rotational speed already stored. */
    method SetDevType()
      modifies this
      ensures value == old(value).(devType := DevType(old(value).rpm))
    {
      if value.rpm == 0 {
        value := value.(devType := "Flash");
      } else {
        value := value.(devType := "HDD");
      }
    }

    /** The IDENT and FAIL texts from the raw LED bit-field. */
    method SetLeds(ledStatus: nat)
      modifies this
      ensures value == old(value).(ledIdent := LedTexts(ledStatus).0, ledFail := LedTexts(ledStatus).1)
    {
      if ledStatus == LED_UNAVAILABLE {
        value := value.(ledIdent := "Unavailable");
        value := value.(ledFail := "Unavailable");
      } else {
        value := value.(ledIdent := ConvertLedStatus(ledStatus, IDENT_OFFSET).0);
        value := value.(ledFail := ConvertLedStatus(ledStatus, FAIL_OFFSET).0);
      }
    }
  }

  /** The sector format is always one of "512", "4KN" and "512e", and the size is
      the sector count times 512, or times the parsed logical block size for
      "4KN", reduced into int64 as Go's multiplication does; when the product
      fits, it is exact and a multiple of that sector size. */
  lemma DerivedGeometry(devPath: string, p: Probe)
    ensures var d := Derive(devPath, p);
      && d.sectorFormat in {"512", "4KN", "512e"}
      && d.sizeSectors == ParseInt(p.sizeText)
      && var sector := if d.sectorFormat == "4KN" then ParseInt(p.logicalBlockSize) else 512;
      && (d.sizeSectors * sector - d.sizeBytes) % TWO_64 == 0
      && (MIN_INT64 <= d.sizeSectors * sector <= MAX_INT64 ==>
            d.sizeBytes == d.sizeSectors * sector && (sector > 0 ==> d.sizeBytes % sector == 0))
  {
    var d := Derive(devPath, p);
    var sector := if d.sectorFormat == "4KN" then ParseInt(p.logicalBlockSize) else 512;
    if MIN_INT64 <= d.sizeSectors * sector <= MAX_INT64 && sector > 0 {
      MultipleMod(d.sizeSectors, sector);
    }
  }

  /** Failed geometry reads: two unreadable block sizes are two equal empty
      texts, classified "4KN", and the empty text parses to 0, so the size is 0
      whatever the sector count; an unreadable sector count gives size 0 too. */
  lemma UnreadableGeometryGivesZeroSize(devPath: string, p: Probe)
    requires (p.logicalBlockSize == "" && p.physicalBlockSize == "") || p.sizeText == ""
    ensures p.logicalBlockSize == "" && p.physicalBlockSize == "" ==> Derive(devPath, p).sectorFormat == "4KN"
    ensures Derive(devPath, p).sizeBytes == 0
  {
  }

  /** Any unparsable sector count, and for "4KN" any unparsable logical block
      size, contributes 0 to the product, so the size is 0 (texts of at most 19
      characters, which the scan reads without overflowing first). */
  lemma UnparsableTextGivesZeroSize(devPath: string, p: Probe)
    requires
      || (!IsDecimalText(p.sizeText) && |p.sizeText| <= 19)
      || (SectorFormat(p.logicalBlockSize, p.physicalBlockSize) == "4KN" &&
          !IsDecimalText(p.logicalBlockSize) && |p.logicalBlockSize| <= 19)
    ensures Derive(devPath, p).sizeBytes == 0
  {
    if !IsDecimalText(p.sizeText) && |p.sizeText| <= 19 {
      MalformedShortTextParsesToZero(p.sizeText);
      assert Derive(devPath, p).sizeSectors == 0;
    }
  }

  /** The device class, health, transport and LED texts are those of the
      fixed rules: "Flash" exactly for rpm 0, "" exactly for an unlisted health
      or link code, and the LED decode of the raw bit-field. */
  lemma DerivedTexts(devPath: string, p: Probe)
    ensures var d := Derive(devPath, p);
      && (d.devType == "Flash" <==> p.rpm == 0)
      && (d.devType == "HDD" <==> p.rpm != 0)
      && (d.health == "" <==> p.health.HealthUnmapped?)
      && (d.transport == "" <==> p.linkType.LinkUnmapped?)
      && (d.ledIdent == "Unavailable" <==> p.ledStatus == LED_UNAVAILABLE)
      && (d.ledFail == "Unavailable" <==> p.ledStatus == LED_UNAVAILABLE)
      && (p.ledStatus != LED_UNAVAILABLE ==>
            d.ledIdent == ConvertLedStatus(p.ledStatus, IDENT_OFFSET).0 &&
            d.ledFail == ConvertLedStatus(p.ledStatus, FAIL_OFFSET).0)
  {
  }

  /** An SSD at /dev/sda with 4096-byte logical and physical blocks and
      1000000 sectors is a "Flash" device in "4KN" format of 4096000000 bytes. */
  lemma FlashFourKnScenario(p: Probe)
    requires p.rpm == 0
    requires p.logicalBlockSize == "4096" && p.physicalBlockSize == "4096"
    requires p.sizeText == "1000000"
    ensures var d := Derive("/dev/sda", p);
      d.devPath == "/dev/sda" && d.devType == "Flash" && d.sectorFormat == "4KN" &&
      d.sizeBytes == 4096000000
  {
    ParseIntOf4096();
    ParseIntOf1000000();
  }

  lemma ParseIntOf4096()
    ensures ParseInt("4096") == 4096
  {
    ParseFormatRoundTrip(4096);
    assert FormatInt(4096) == "4096";
  }

  lemma ParseIntOf1000000()
    ensures ParseInt("1000000") == 1000000
  {
    ParseFormatRoundTrip(1000000);
    assert FormatInt(1000000) == "1000000";
  }

  /** The value `disk` holds in `listDisks` once the first `n` listed paths have
      been passed to `getDiskInfo`: `disk` is one variable reused across
      iterations, and a path that does not exist leaves it untouched. */
  function RecordAfter(disks: seq<string>, probe: string -> Probe, n: nat): (r: DiskRecord)
    requires n <= |disks|
    ensures r == ZeroRecord <==> forall k :: 0 <= k < n ==> probe(disks[k]).pathNotExist
  {
    if n == 0 then ZeroRecord
    else if !probe(disks[n - 1]).pathNotExist then Derive(disks[n - 1], probe(disks[n - 1]))
    else RecordAfter(disks, probe, n - 1)
  }

  /** The records behind the first `n` rows `listDisks` prints. */
  function ListedRows(disks: seq<string>, probe: string -> Probe, n: nat): (rows: seq<DiskRecord>)
    requires n <= |disks|
    ensures |rows| == n
  {
    if n == 0 then [] else ListedRows(disks, probe, n - 1) + [RecordAfter(disks, probe, n)]
  }

  /** Row `k` shows what `disk` holds right after the `k`-th path was probed. */
  lemma {:induction false} ListedRowIsRecordAfter(disks: seq<string>, probe: string -> Probe, n: nat, k: nat)
    requires k < n <= |disks|
    ensures ListedRows(disks, probe, n)[k] == RecordAfter(disks, probe, k + 1)
  {
    if k < n - 1 {
      var prefix := ListedRows(disks, probe, n - 1);
      assert ListedRows(disks, probe, n)[k] == prefix[k];
      ListedRowIsRecordAfter(disks, probe, n - 1, k);
    }
  }

  /** `listDisks` without the printing: `probe` stands for what the collaborators
      report for each path; the result is the record behind each printed row,
      so a device whose path is missing is printed with the previous row's data. */
  method ListDisks(disks: seq<string>, probe: string -> Probe) returns (rows: seq<DiskRecord>)
    ensures rows == ListedRows(disks, probe, |disks|)
    ensures forall i :: 0 <= i < |disks| ==> rows[i] == RecordAfter(disks, probe, i + 1)
  {
    var disk := new Disk();
    rows := [];
    for i := 0 to |disks|
      invariant rows == ListedRows(disks, probe, i)
      invariant disk.value == RecordAfter(disks, probe, i)
    {
      var _ := disk.GetDiskInfo(disks[i], probe(disks[i]));
      rows := rows + [disk.value];
    }
    forall i | 0 <= i < |disks|
      ensures rows[i] == RecordAfter(disks, probe, i + 1)
    {
      ListedRowIsRecordAfter(disks, probe, |disks|, i);
    }
  }

  /** A row whose device path is missing shows the data of the last earlier
      device whose path existed. */
  lemma {:induction false} MissingPathRepeatsLastFound(disks: seq<string>, probe: string -> Probe, j: nat, i: nat)
    requires j <= i < |disks|
    requires !probe(disks[j]).pathNotExist
    requires forall k :: j < k <= i ==> probe(disks[k]).pathNotExist
    ensures RecordAfter(disks, probe, i + 1) == Derive(disks[j], probe(disks[j]))
    decreases i
  {
    if i > j {
      MissingPathRepeatsLastFound(disks, probe, j, i - 1);
    }
  }
}
