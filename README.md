# localdisk: the disk-record layer, in Dafny

`localdisk` is a small Go command-line tool. It lists the local disks of a host
and shows one of them, using libstoragemgmt (through its `localdisk` Go
binding) and sysfs. It can also switch a disk's fault LED on or off. This
project models the part of `main.go` that turns the raw values those
collaborators report into one normalised `disk` record, together with the
small decoders and formatters around it.

- The `disk` struct becomes `DiskInfo.DiskRecord`, and its zero value becomes
  `ZeroRecord`. The `disk` variable whose address `getDiskInfo` receives
  becomes the class `DiskInfo.Disk`. Its one mutable field, `value`, holds the
  struct.
- `getDiskInfo` is `Disk.GetDiskInfo`. Each `disk.f = v` of the source becomes
  an in-place update of field `f`, in the source's order. The early return for
  a missing path leaves the record untouched. Its postcondition ties the new
  record to `Derive`, the record every field of which is stated as a function
  of the raw inputs. Lemmas then prove what `Derive` guarantees: which sector
  formats are possible, the size and its int64 wrap-around, the zero size that
  failed reads give, the device class, the table texts and the LED texts.
- Each collaborator's result is an input. They are bundled in `Probe`:
  - whether the path exists;
  - the serial number;
  - the sysfs texts, already trimmed, or "" when a read fails;
  - the health and link-type codes;
  - rpm, VPD 0x83 and link speed;
  - the raw LED bit-field.

  `listDisks` gets a function from device path to `Probe`.
- `strconv.ParseInt(s, 10, 64)`, with its error discarded, is modelled as Go
  implements it (`GoStrconv.ParseInt`):
  - an optional sign, then a left-to-right digit scan;
  - a syntax error gives 0;
  - an out-of-range value is clamped to the nearest int64 bound.

  `%d` is `FormatInt`, and the two round-trip. `strings.Split` with a
  one-character separator is `GoStrings.Split`. Go's int64 multiplication wraps
  modulo 2^64 (`GoInts.MulInt64`).
- The lsm health and link-type codes are datatypes. Their numeric values are
  not visible in the source, so each datatype lists the codes the two tables
  name plus one `...Unmapped(code)` case for any other value. Go's lookup of a
  missing key yields "".
- `bytesToHuman` is a method with the source's dividing loop. It returns the
  unit it chose: the divisor 1024^(exp+1), the exponent and the prefix letter.
  For counts below 1024 it returns the exact text.
- `setFailLed` receives the libstoragemgmt fault-LED setters as a function
  from the call made to the error it reports. It records which setter it
  invoked.

Where the code and its description differ, the model follows the code:

- `convertLedStatus` shifts the bit-field and compares the whole remaining
  value with 1 and 2. No sub-field is masked out. As a result, any higher set
  bit reads "UNKNOWN", and the two LEDs are never both decoded to ON/OFF
  (`Leds.AtMostOneLedDecoded`).
- An unparsable number is not always 0. `strconv.ParseInt` reports a range
  error as soon as the digits it has read exceed 2^64 - 1, even if a non-digit
  follows. It then returns the clamped bound. "Malformed text gives 0" is
  proved only for text of at most 19 characters, where no overflow can come
  first.

## Model

| member | source | states |
|---|---|---|
| GoInts.WrapInt64 | main.go:167-169 | the int64 that an integer result lands on in Go's two's-complement arithmetic agrees with it modulo 2^64, and is the integer itself whenever that fits |
| GoInts.MulInt64 | main.go:165-170 | Go's int64 product of the sector count and the sector size agrees with the exact product modulo 2^64, and is the exact product whenever that fits |
| GoStrconv.ScanUint | main.go:149 | the digit scan ends in a value only for an all-digit text, and then a value no smaller than the start and at most 2^64-1; a syntax error means some character is not a digit |
| GoStrconv.ParseInt | main.go:149 | an empty text, or a lone sign, parses to 0 |
| GoStrconv.NatToDecimal | main.go:70 | `%d` of a natural number is a non-empty run of digits with no leading zero |
| GoStrconv.FormatInt | main.go:70 | `%d` of an integer starts with '-' exactly for negatives and is otherwise all digits |
| GoStrconv.ScanUintAppend | main.go:149 | scanning a concatenation resumes the scan of the second part from the value the first part gave |
| GoStrconv.ScanNatToDecimal | main.go:149 | the scan reads back exactly the number the decimal rendering wrote |
| GoStrconv.ParseFormatRoundTrip | main.go:149 | every int64 survives `%d` followed by ParseInt |
| GoStrconv.ShortScanNeverOverflows | main.go:149 | a scan with at most 19 digits in all never reports a range error; it fails exactly when a character is not a digit |
| GoStrconv.MalformedShortTextParsesToZero | main.go:149 | text of at most 19 characters that is not a signed run of digits parses to 0 |
| GoStrings.Split | main.go:111 | splitting yields at least one piece and no piece contains the separator |
| GoStrings.SplitJoinRoundTrip | main.go:111 | joining the pieces back with the separator gives the original text |
| GoStrings.SplitSinglePiece | main.go:111-113 | there is a single piece exactly when the text has no separator, and it is the whole text |
| GoStrings.SplitLastPiece | main.go:111-116 | the last piece is a suffix of the text, preceded by the separator whenever there are two or more pieces |
| LsmText.HealthText | main.go:23-28 | the health text is "" exactly for a code the table lacks; the Unknown code reads "Unknown" |
| LsmText.HealthTextIsTableLookup | main.go:23-28 | the health text is the table's entry for a listed code, and the table lists exactly the named codes |
| LsmText.HealthTextInjective | main.go:23-28 | two codes with the same non-empty health text are the same code |
| LsmText.LinkText | main.go:29-43 | the transport text is "" exactly for a link type the table lacks; the Unknown type reads "Unknown" |
| LsmText.LinkTextIsTableLookup | main.go:29-43 | the transport text is the table's entry for a listed link type, and the table lists exactly the named types |
| LsmText.LinkTextInjective | main.go:29-43 | two link types with the same non-empty transport text are the same type |
| Humanize.BytesToHuman | main.go:66-78 | below 1024 (negatives included) the text is the exact count with " B"; otherwise the divisor is 1024^(exp+1) with divisor <= b < 1024 * divisor, so the integer quotient `b / div` lies in [1, 1024), and exp <= 5, so the prefix is "KMGTPE"[exp] |
| Leds.ShiftRight | main.go:83 | the unsigned right shift by `offset` is the number of whole multiples of 2^offset in the bit-field: r * 2^offset <= bitField < (r + 1) * 2^offset |
| Leds.ConvertLedStatus | main.go:81-95 | the LED reads "ON" exactly when the shifted bit-field is 1, "OFF" exactly when it is 2, "UNKNOWN" for every other value, and the error is always nil |
| Leds.LedTexts | main.go:191-197 | both LEDs read "Unavailable" exactly for the bit-field 1; for any other bit-field each reads ON, OFF or UNKNOWN, as `convertLedStatus` decodes it at offset 1 (IDENT) and 4 (FAIL) |
| Leds.HigherBitGivesUnknown | main.go:83-93 | with no mask, any bit-field at least 2^(offset+2) reads "UNKNOWN" |
| Leds.IdentDecodedRange | main.go:195 | IDENT reads ON exactly for bit-fields 2 and 3, and OFF exactly for 4 and 5 |
| Leds.FailDecodedRange | main.go:196 | FAIL reads ON exactly for bit-fields 16 to 31, and OFF exactly for 32 to 47 |
| Leds.AtMostOneLedDecoded | main.go:191-197 | whenever one LED reads ON or OFF, the other reads UNKNOWN |
| Leds.SetFailLed | main.go:203-213 | "on" invokes only the FaultLedOn setter, "off" only FaultLedOff, each on the given path, and the setter's error is returned; any other state invokes nothing and returns nil |
| Leds.SetFailLedDependsOnlyOnItsCall | main.go:203-213 | two libraries that agree on the one call made give the same outcome |
| DevName.ExtractDev | main.go:108-117 | an error, with the source's message, exactly when the path has no '/'; otherwise a '/'-free name that ends the path right after a '/' |
| DevName.ExtractDevOfDevSda | main.go:108-117 | "/dev/sda" gives "sda" |
| DevName.ExtractDevTrailingSlash | main.go:108-117 | a path ending in '/' gives "" and no error |
| DevName.ExtractDevBareName | main.go:108-117 | a name without '/' gives an error |
| DiskInfo.SectorFormat | main.go:156-164 | "512" exactly for two equal "512" texts, "4KN" for any other two equal texts (both empty included), "512e" exactly for unequal texts |
| DiskInfo.SectorBytes | main.go:165-170 | a sector is 512 bytes for every format but "4KN", and the parsed logical block size for "4KN", which is 0 for a logical block-size text of at most 19 characters that is not a number |
| DiskInfo.DevType | main.go:176-181 | "Flash" exactly for rpm 0, "HDD" for every other rpm, negatives included |
| DiskInfo.Derive | main.go:133-200 | the record of an existing path: its sector format is one of "512", "4KN", "512e", its device class "Flash" or "HDD", and each LED text one of "Unavailable", "ON", "OFF", "UNKNOWN" |
| DiskInfo.Disk.constructor | main.go:218 | a fresh `disk` holds Go's zero record |
| DiskInfo.Disk.GetDiskInfo | main.go:133-200 | a missing path returns "Device path not found" and leaves the record unchanged; otherwise returns nil with every field overwritten as `Derive` states |
| DiskInfo.Disk.SetGeometry | main.go:156-170 | writes the sector format, then the size as the stored sector count times the sector size, wrapped to int64; no other field changes |
| DiskInfo.Disk.SetDevType | main.go:176-181 | writes the device class of the stored rpm; no other field changes |
| DiskInfo.Disk.SetLeds | main.go:191-197 | writes the IDENT and FAIL texts of the bit-field; no other field changes |
| DiskInfo.DerivedGeometry | main.go:149-170 | the format is one of "512", "4KN", "512e"; the size is the sector count times the sector size modulo 2^64, and exactly that product, a multiple of the sector size, when it fits |
| DiskInfo.UnreadableGeometryGivesZeroSize | main.go:154-170 | two failed block-size reads classify as "4KN" and give size 0; a failed sector-count read gives size 0 |
| DiskInfo.UnparsableTextGivesZeroSize | main.go:149-170 | an unparsable sector count, or for "4KN" an unparsable logical block size (text of at most 19 characters), gives size 0 |
| DiskInfo.DerivedTexts | main.go:172-197 | the device class, health, transport and LED texts of the record follow those rules |
| DiskInfo.FlashFourKnScenario | main.go:143-181 | an rpm-0 device with 4096-byte blocks and 1000000 sectors is a 4KN Flash device of 4096000000 bytes |
| DiskInfo.RecordAfter | main.go:218-240 | the reused `disk` still holds the zero record after the first n paths exactly when none of those paths exists |
| DiskInfo.ListedRows | main.go:239-258 | `listDisks` prints one row per listed device |
| DiskInfo.ListedRowIsRecordAfter | main.go:239-240 | row k shows what `disk` holds right after the k-th path was probed |
| DiskInfo.ListDisks | main.go:216-240 | with one `disk` reused by every iteration, each row is the record left by the paths probed so far |
| DiskInfo.MissingPathRepeatsLastFound | main.go:139-141 | a row whose path is missing repeats the data of the last earlier device whose path existed |

## Left out

- `os.Stat`, `readFile` and `getDeviceAttr` (main.go:98-130, 139) read the
  filesystem. Their results are `Probe` inputs: whether the path exists, and
  each trimmed text, or "" when a read fails. The sysfs path building,
  including the `extractDev` call inside `getDiskInfo` that only serves it, is
  not modelled. `extractDev` itself is modelled.
- `strings.TrimSpace` (main.go:104) is library behaviour. Texts arrive
  already trimmed.
- The `localdisk.*` calls (main.go:144, 172-187, 207-209, 220) go into
  libstoragemgmt through cgo. Their results are inputs. The fault-LED setters
  are a function parameter of `SetFailLed`, and `localdisk.List` is the
  `disks` parameter of `ListDisks`.
- The numeric values of the lsm health, link-type and LED codes belong to the
  library. The width of the LED bit-field is not visible, so it is an
  unbounded natural number.
- Humanize.BytesToHuman: the `%.1f` rendering of `float64(b)/float64(div)`
  (main.go:77) is floating-point formatting. The method returns the divisor,
  exponent and prefix it chose instead of the formatted text. Its contract
  bounds the integer quotient only: rounding to one decimal can print
  "1024.0" (b = 1048575 gives divisor 1024 and "1024.0 KiB").
- DiskInfo.Disk: the seventeen fields of the Go struct are held as one record
  value in one mutable field. Each source assignment updates one field of it
  in place. Taking the address of a single field is not modelled, and the
  source never does so.
- DiskInfo.ListDisks: the `fmt` column formatting (main.go:222-238, 242-257)
  is presentation. The method returns the record behind each printed row.
- `showDisk` (main.go:262-287) is presentation, plus `os.Exit` on error. So is
  `main` (main.go:289-317), which holds `flag` parsing and `os.Exit`.
