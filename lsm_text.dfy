/** The storage library's health and link-type codes and the two fixed tables
    that turn them into display text (main.go's `healthText` and `linkText`).
    The numeric values of the codes belong to the library; the model keeps the
    named codes the tables list and one `...Unmapped` case for any other value. */
module LsmText {

  datatype DiskHealthStatus =
    | HealthUnknown
    | HealthFail
    | HealthWarn
    | HealthGood
    | HealthUnmapped(code: int)

  datatype DiskLinkType =
    | LinkNoSupport
    | LinkUnknown
    | LinkFc
    | LinkSsa
    | LinkSbp
    | LinkSrp
    | LinkIscsi
    | LinkSas
    | LinkAdt
    | LinkAta
    | LinkUsb
    | LinkSop
    | LinkPciE
    | LinkUnmapped(code: int)

  const HealthTextTable: map<DiskHealthStatus, string> := map[
    HealthUnknown := "Unknown",
    HealthFail := "Fail",
    HealthWarn := "Warn",
    HealthGood := "Good"
  ]

  const LinkTextTable: map<DiskLinkType, string> := map[
    LinkNoSupport := "Not supported by LSM",
    LinkUnknown := "Unknown",
    LinkFc := "FibreChannel",
    LinkSsa := "SSA",
    LinkSbp := "Serial Bus Protocol",
    LinkSrp := "SCSI RDMA",
    LinkIscsi := "iSCSI",
    LinkSas := "SAS",
    LinkAdt := "Automated Drive(Tape)",
    LinkAta := "IDE/SATA",
    LinkUsb := "USB",
    LinkSop := "SCSI over PCIe",
    LinkPciE := "PCIe"
  ]

  /** Go map lookup `healthText[h]`: the table's text for a listed code, the
      zero value "" for a code the table lacks. */
  function HealthText(h: DiskHealthStatus): (t: string)
    ensures t == "" <==> h.HealthUnmapped?
    ensures h == HealthUnknown ==> t == "Unknown"
  {
    match h
    case HealthUnknown => "Unknown"
    case HealthFail => "Fail"
    case HealthWarn => "Warn"
    case HealthGood => "Good"
    case HealthUnmapped(_) => ""
  }

  /** The lookup agrees with the table: the table's entry for a listed code,
      and "" exactly for the codes the table lacks. */
  lemma HealthTextIsTableLookup(h: DiskHealthStatus)
    ensures h in HealthTextTable <==> !h.HealthUnmapped?
    ensures HealthText(h) == if h in HealthTextTable then HealthTextTable[h] else ""
  {
  }

  /** Go map lookup `linkText[l]`: the table's text for a listed link type,
      the zero value "" for a type the table lacks. */
  function LinkText(l: DiskLinkType): (t: string)
    ensures t == "" <==> l.LinkUnmapped?
    ensures l == LinkUnknown ==> t == "Unknown"
  {
    match l
    case LinkNoSupport => "Not supported by LSM"
    case LinkUnknown => "Unknown"
    case LinkFc => "FibreChannel"
    case LinkSsa => "SSA"
    case LinkSbp => "Serial Bus Protocol"
    case LinkSrp => "SCSI RDMA"
    case LinkIscsi => "iSCSI"
    case LinkSas => "SAS"
    case LinkAdt => "Automated Drive(Tape)"
    case LinkAta => "IDE/SATA"
    case LinkUsb => "USB"
    case LinkSop => "SCSI over PCIe"
    case LinkPciE => "PCIe"
    case LinkUnmapped(_) => ""
  }

  /** The lookup agrees with the table: the table's entry for a listed link
      type, and "" exactly for the types the table lacks. */
  lemma LinkTextIsTableLookup(l: DiskLinkType)
    ensures l in LinkTextTable <==> !l.LinkUnmapped?
    ensures LinkText(l) == if l in LinkTextTable then LinkTextTable[l] else ""
  {
  }

  /** Every listed health code has its own text, so the text identifies the code. */
  lemma HealthTextInjective(a: DiskHealthStatus, b: DiskHealthStatus)
    requires HealthText(a) == HealthText(b) != ""
    ensures a == b
  {
  }

  /** Every listed link type has its own text, so the text identifies the code. */
  lemma LinkTextInjective(a: DiskLinkType, b: DiskLinkType)
    requires LinkText(a) == LinkText(b) != ""
    ensures a == b
  {
  }
}
