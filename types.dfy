/** The record and result types of the DNS analyzer (internal/dns/types.go),
    and the fixed-width integers they use. */
module Types {
  import opened GoStrings

  newtype uint16 = x: int | 0 <= x < 0x1_0000
  newtype uint32 = x: int | 0 <= x < 0x1_0000_0000

  /** A DNS resource record type code; any 16-bit value can occur in an
      answer header, the analyzer only asks for the four below. */
  newtype QueryType = x: int | 0 <= x < 0x1_0000

  /** The type codes of section 3.2.2 of RFC 1035 (A, MX, TXT) and section
      2.1 of RFC 3596 (AAAA). */
  const TypeA: QueryType := 1
  const TypeAAAA: QueryType := 28
  const TypeMX: QueryType := 15
  const TypeTXT: QueryType := 16

  /** A Go `time.Duration`: a count of nanoseconds. */
  type Duration = int

  /** A reading of the wall clock, in nanoseconds; `time.Time.After` and
      `time.Time.Add` become `>` and `+`. */
  type Time = int

  /** One answer record, normalised: `priority` is the MX preference and 0
      for every other type. */
  datatype DNSRecord = DNSRecord(
    name: seq<byte>,
    recordType: QueryType,
    value: seq<byte>,
    ttl: uint32,
    priority: uint16)

  /** The outcome of one analysis. `age` and `historical` are declared in the
      source but never filled in. */
  datatype AnalysisResult = AnalysisResult(
    records: seq<DNSRecord>,
    age: Duration,
    similarity: real,
    historical: seq<DNSRecord>,
    lastUpdated: Time)

  /** The four type codes the analyzer queries are the standard ones and are
      pairwise distinct, so a record's type tag names its category. */
  lemma TypeCodes()
    ensures TypeA == 1 && TypeMX == 15 && TypeTXT == 16 && TypeAAAA == 28
    ensures TypeA != TypeAAAA && TypeA != TypeMX && TypeA != TypeTXT
    ensures TypeAAAA != TypeMX && TypeAAAA != TypeTXT && TypeMX != TypeTXT
  {
  }
}
