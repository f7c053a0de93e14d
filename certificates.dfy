/**
 * The domain types the presentation code reads: a health certificate with
 * its tagged entry, the person's aggregate vaccination state, and the
 * localized strings and date formatting it renders with.
 *
 * Localized strings (`AppStrings.…`) are opaque: a rendered string is kept
 * symbolically as the key of its caption plus the arguments handed to
 * `String(format:)`, and `DateFormatter.localizedString(from:dateStyle:timeStyle:)`
 * is kept as the date together with the two styles it was asked for.
 */
module HealthCertificates {
  import opened Wrappers

  /** A point in time, as produced by the date parsers of the certificate library. */
  datatype Date = Date(secondsSinceReferenceDate: int)

  /** A parser such as `ISO8601DateFormatter.justLocalDateFormatter.date(from:)`. */
  type DateParser = string -> Option<Date>

  datatype VaccinationEntry = VaccinationEntry(
    diseaseOrAgentTargeted: string,
    vaccineOrProphylaxis: string,
    vaccineMedicinalProduct: string,
    marketingAuthorizationHolder: string,
    doseNumber: int,
    totalSeriesOfDoses: int,
    dateOfVaccination: string,
    countryOfVaccination: string,
    certificateIssuer: string,
    uniqueCertificateIdentifier: string)

  datatype CoronaTestType = Pcr | Antigen

  /** `coronaTestType` is None when the test type could not be determined. */
  datatype TestEntry = TestEntry(coronaTestType: Option<CoronaTestType>, sampleCollectionDate: Option<Date>)

  datatype RecoveryEntry = RecoveryEntry(localCertificateValidityEndDate: Option<Date>)

  /** Exactly one entry per certificate. */
  datatype Entry =
    | Vaccination(vaccinationEntry: VaccinationEntry)
    | Test(testEntry: TestEntry)
    | Recovery(recoveryEntry: RecoveryEntry)

  datatype CertificateType = VaccinationType | TestType | RecoveryType

  /** Certificates compare by value, a convention of this model. */
  datatype HealthCertificate = HealthCertificate(base45: string, entry: Entry)

  /** The certificate type (`healthCertificate.type`) is the kind of its entry. */
  function TypeOf(c: HealthCertificate): (t: CertificateType)
    ensures t == VaccinationType <==> c.entry.Vaccination?
    ensures t == TestType <==> c.entry.Test?
    ensures t == RecoveryType <==> c.entry.Recovery?
  {
    match c.entry
    case Vaccination(_) => VaccinationType
    case Test(_) => TestType
    case Recovery(_) => RecoveryType
  }

  datatype VaccinationState =
    | NotVaccinated
    | Incomplete
    | FullyVaccinated(daysUntilCompleteProtection: int)
    | CompletelyProtected

  /**
   * A snapshot of the person as the certificate store holds it. The store
   * decides which certificate is the most relevant one; the presentation
   * code only compares against it.
   */
  datatype HealthCertifiedPerson = HealthCertifiedPerson(
    vaccinationCertificates: seq<HealthCertificate>,
    vaccinationState: VaccinationState,
    mostRelevantHealthCertificate: Option<HealthCertificate>)

  /** The localized strings the person screen renders (`AppStrings.HealthCertificate.Person…`). */
  datatype AppString =
    | VaccinationHeadline
    | VaccinationCount
    | VaccinationDate
    | TestHeadline
    | PcrTest
    | AntigenTest
    | SampleCollectionDate
    | RecoveryHeadline
    | ValidityDate
    | QRCodeImageDescription
    | DaysUntilCompleteProtection

  datatype DateStyle = ShortDate
  datatype TimeStyle = NoTime | ShortTime

  /** An argument handed to `String(format:)`. */
  datatype FormatArg =
    | IntArg(n: int)
    | DateArg(date: Date, dateStyle: DateStyle, timeStyle: TimeStyle)

  /** A localized string filled in with its format arguments. */
  datatype Text = Text(key: AppString, args: seq<FormatArg>)

  /** A localized string used as is. */
  function Caption(key: AppString): Text {
    Text(key, [])
  }

  /** The fixed headline of each certificate type, shared by the list cell and the QR code cell. */
  function CertificateHeadline(t: CertificateType): (r: Text)
    ensures r.args == []
    ensures r.key in {VaccinationHeadline, TestHeadline, RecoveryHeadline}
  {
    match t
    case VaccinationType => Caption(VaccinationHeadline)
    case TestType => Caption(TestHeadline)
    case RecoveryType => Caption(RecoveryHeadline)
  }

}
