/**
 * The key paths of a vaccination entry that the caption table and the
 * value table answer for. `Unlisted` stands for every other property
 * of the entry, which both tables answer with nil.
 */
module VaccinationEntryKeyPath {

  datatype KeyPath =
    | DiseaseOrAgentTargeted
    | VaccineOrProphylaxis
    | VaccineMedicinalProduct
    | MarketingAuthorizationHolder
    | DoseNumber
    | TotalSeriesOfDoses
    | DoseNumberAndTotalSeriesOfDoses
    | DateOfVaccination
    | CountryOfVaccination
    | CertificateIssuer
    | UniqueCertificateIdentifier
    | Unlisted(property: string)
}

/**
 * The presentation helpers on a vaccination entry: the last-dose test, the
 * "X of Y" dose count, the caption table and the value table with its
 * value-set lookups.
 */
module VaccinationEntryFormatting {
  import opened Wrappers
  import opened HealthCertificates
  import opened Decimal
  import K = VaccinationEntryKeyPath

  /** The four value sets the coded fields are looked up in. */
  datatype ValueSetType =
    | DiseaseOrAgentTargeted
    | VaccineOrProphylaxis
    | VaccineMedicinalProduct
    | MarketingAuthorizationHolder

  /** One value set: code to display text. */
  type ValueSet = map<string, string>

  /** The value sets as downloaded; a set may be missing. */
  type ValueSets = map<ValueSetType, ValueSet>

  /** The country table: country code to localized country name. */
  type CountryTable = map<string, string>

  /** A formatter such as `DCCDateStringFormatter.formattedString(from:)`. */
  type DateStringFormatter = string -> Option<string>

  predicate IsLastDoseInASeries(e: VaccinationEntry) {
    e.doseNumber == e.totalSeriesOfDoses
  }

  function LocalVaccinationDate(e: VaccinationEntry, parseLocalDate: DateParser): Option<Date> {
    parseLocalDate(e.dateOfVaccination)
  }

  const Separator: string := " of "

  function DoseNumberAndTotalSeriesOfDoses(e: VaccinationEntry): string {
    IntString(e.doseNumber) + Separator + IntString(e.totalSeriesOfDoses)
  }

  predicate SeparatorAt(s: string, k: nat) {
    k + |Separator| <= |s| && s[k..k + |Separator|] == Separator
  }

  /** The first position at or after `from` where the separator starts. */
  function FindSeparator(s: string, from: nat): (r: Option<nat>)
    ensures r.Some? ==> from <= r.value && SeparatorAt(s, r.value)
    ensures r.Some? ==> forall k: nat :: from <= k < r.value ==> !SeparatorAt(s, k)
    ensures r.None? ==> forall k: nat :: from <= k ==> !SeparatorAt(s, k)
    decreases |s| - from
  {
    if from + |Separator| > |s| then None
    else if s[from..from + |Separator|] == Separator then Some(from)
    else FindSeparator(s, from + 1)
  }

  /** Reads a dose count back: split at the first separator, parse both sides. */
  function ParseDoseNumberAndTotalSeriesOfDoses(s: string): Option<(int, int)> {
    match FindSeparator(s, 0)
    case None => None
    case Some(i) =>
      match (ParseInt(s[..i]), ParseInt(s[i + |Separator|..]))
      case (Some(dose), Some(total)) => Some((dose, total))
      case _ => None
  }

  lemma {:induction false} FindSeparatorAfter(a: string, b: string, from: nat)
    requires from <= |a|
    requires forall i :: 0 <= i < |a| ==> a[i] != ' '
    ensures FindSeparator(a + Separator + b, from) == Some(|a|)
    decreases |a| - from
  {
    var s := a + Separator + b;
    if from < |a| {
      assert s[from..from + |Separator|][0] == a[from] != Separator[0];
      FindSeparatorAfter(a, b, from + 1);
    } else {
      assert s[from..from + |Separator|] == Separator;
    }
  }

  /** The dose count reads back as the dose number and the series total. */
  lemma DoseNumberAndTotalSeriesOfDosesRoundTrip(e: VaccinationEntry)
    ensures ParseDoseNumberAndTotalSeriesOfDoses(DoseNumberAndTotalSeriesOfDoses(e))
         == Some((e.doseNumber, e.totalSeriesOfDoses))
  {
    var a, b := IntString(e.doseNumber), IntString(e.totalSeriesOfDoses);
    var s := a + Separator + b;
    FindSeparatorAfter(a, b, 0);
    assert s[..|a|] == a;
    assert s[|a| + |Separator|..] == b;
    IntStringRoundTrip(e.doseNumber);
    IntStringRoundTrip(e.totalSeriesOfDoses);
  }

  /** The last dose is the one whose two rendered numbers read the same. */
  lemma LastDoseIffRenderedNumbersAgree(e: VaccinationEntry)
    ensures IsLastDoseInASeries(e) <==> IntString(e.doseNumber) == IntString(e.totalSeriesOfDoses)
  {
    IntStringInjective(e.doseNumber, e.totalSeriesOfDoses);
  }

  const DoseNumberTitle: string := "Nummer der Impfung / Number in a series of vaccinations"

  /** The bilingual caption of a field, nil for a key path the table does not list. */
  function Title(keyPath: K.KeyPath): (r: Option<string>)
    ensures r.None? <==> keyPath.Unlisted?
    ensures keyPath == K.DoseNumber || keyPath == K.DoseNumberAndTotalSeriesOfDoses ==> r == Some(DoseNumberTitle)
  {
    match keyPath
    case DiseaseOrAgentTargeted => Some("Zielkrankheit oder -erreger / Disease or Agent Targeted")
    case VaccineOrProphylaxis => Some("Art des Impfstoffs / Vaccine Type")
    case VaccineMedicinalProduct => Some("Impfstoff / Vaccine")
    case MarketingAuthorizationHolder => Some("Hersteller / Manufacturer")
    case DoseNumber => Some(DoseNumberTitle)
    case TotalSeriesOfDoses => Some("Gesamtzahl an Impfdosen / Total number of vaccination doses")
    case DoseNumberAndTotalSeriesOfDoses => Some(DoseNumberTitle)
    case DateOfVaccination => Some("Datum der Impfung / Date of Vaccination (YYYY-MM-DD)")
    case CountryOfVaccination => Some("Land der Impfung / Member State of Vaccination")
    case CertificateIssuer => Some("Zertifikataussteller / Certificate Issuer")
    case UniqueCertificateIdentifier => Some("Zertifikatkennung / Unique Certificate Identifier")
    case Unlisted(_) => None
  }

  /** The length and last letter of each caption, which already tell the captions apart. */
  function TitleSignature(keyPath: K.KeyPath): (int, char) {
    match keyPath
    case DiseaseOrAgentTargeted => (55, 'd')
    case VaccineOrProphylaxis => (33, 'e')
    case VaccineMedicinalProduct => (19, 'e')
    case MarketingAuthorizationHolder => (25, 'r')
    case DoseNumber => (55, 's')
    case TotalSeriesOfDoses => (59, 's')
    case DoseNumberAndTotalSeriesOfDoses => (55, 's')
    case DateOfVaccination => (52, ')')
    case CountryOfVaccination => (46, 'n')
    case CertificateIssuer => (41, 'r')
    case UniqueCertificateIdentifier => (49, 'r')
    case Unlisted(_) => (0, ' ')
  }

  lemma TitleHasSignature(keyPath: K.KeyPath)
    requires Title(keyPath).Some?
    ensures |Title(keyPath).value| > 0
    ensures TitleSignature(keyPath) == (|Title(keyPath).value|, Title(keyPath).value[|Title(keyPath).value| - 1])
  {
    match keyPath
    case DiseaseOrAgentTargeted =>
    case VaccineOrProphylaxis =>
    case VaccineMedicinalProduct =>
    case MarketingAuthorizationHolder =>
    case DoseNumber =>
    case TotalSeriesOfDoses =>
    case DoseNumberAndTotalSeriesOfDoses =>
    case DateOfVaccination =>
    case CountryOfVaccination =>
    case CertificateIssuer =>
    case UniqueCertificateIdentifier =>
  }

  /** Apart from the dose number and the dose count, no two listed fields share a caption. */
  lemma OnlyDoseFieldsShareATitle(f: K.KeyPath, g: K.KeyPath)
    requires f != g && Title(f).Some? && Title(f) == Title(g)
    ensures f in {K.DoseNumber, K.DoseNumberAndTotalSeriesOfDoses}
    ensures g in {K.DoseNumber, K.DoseNumberAndTotalSeriesOfDoses}
  {
    TitleHasSignature(f);
    TitleHasSignature(g);
  }

  /** `valueSets.valueSet(for:)`: the set, if it was downloaded. */
  function ValueSetFor(valueSets: ValueSets, t: ValueSetType): Option<ValueSet> {
    if t in valueSets then Some(valueSets[t]) else None
  }

  /** `valueSet.displayText(forKey:)`: the display text, if the code is in the set. */
  function DisplayText(valueSet: ValueSet, key: string): Option<string> {
    if key in valueSet then Some(valueSet[key]) else None
  }

  /** `valueSets?.valueSet(for: t)?.displayText(forKey: code) ?? code` */
  function LookUp(valueSets: Option<ValueSets>, t: ValueSetType, code: string): string {
    var valueSet := match valueSets case Some(vs) => ValueSetFor(vs, t) case None => None;
    var text := match valueSet case Some(found) => DisplayText(found, code) case None => None;
    text.GetOr(code)
  }

  /** The value set a coded field is resolved in; None for the fields that are not coded. */
  function CodedValueSet(keyPath: K.KeyPath): Option<ValueSetType> {
    match keyPath
    case DiseaseOrAgentTargeted => Some(DiseaseOrAgentTargeted)
    case VaccineOrProphylaxis => Some(VaccineOrProphylaxis)
    case VaccineMedicinalProduct => Some(VaccineMedicinalProduct)
    case MarketingAuthorizationHolder => Some(MarketingAuthorizationHolder)
    case _ => None
  }

  /** The raw code a vaccination entry carries for a value set. */
  function Code(e: VaccinationEntry, t: ValueSetType): string {
    match t
    case DiseaseOrAgentTargeted => e.diseaseOrAgentTargeted
    case VaccineOrProphylaxis => e.vaccineOrProphylaxis
    case VaccineMedicinalProduct => e.vaccineMedicinalProduct
    case MarketingAuthorizationHolder => e.marketingAuthorizationHolder
  }

  /** The displayed value of a field. */
  function FormattedValue(
    e: VaccinationEntry, keyPath: K.KeyPath, valueSets: Option<ValueSets>,
    countries: CountryTable, formatDateString: DateStringFormatter): (r: Option<string>)
    ensures keyPath.Unlisted? ==> r.None?
    ensures !keyPath.Unlisted? && keyPath != K.DateOfVaccination ==> r.Some?
    ensures keyPath == K.DateOfVaccination ==> r == formatDateString(e.dateOfVaccination)
    ensures keyPath == K.CertificateIssuer ==> r == Some(e.certificateIssuer)
    ensures keyPath == K.UniqueCertificateIdentifier ==> r == Some(e.uniqueCertificateIdentifier)
  {
    match keyPath
    case DiseaseOrAgentTargeted => Some(LookUp(valueSets, DiseaseOrAgentTargeted, e.diseaseOrAgentTargeted))
    case VaccineOrProphylaxis => Some(LookUp(valueSets, VaccineOrProphylaxis, e.vaccineOrProphylaxis))
    case VaccineMedicinalProduct => Some(LookUp(valueSets, VaccineMedicinalProduct, e.vaccineMedicinalProduct))
    case MarketingAuthorizationHolder =>
      Some(LookUp(valueSets, MarketingAuthorizationHolder, e.marketingAuthorizationHolder))
    case DoseNumber => Some(IntString(e.doseNumber))
    case TotalSeriesOfDoses => Some(IntString(e.totalSeriesOfDoses))
    case DoseNumberAndTotalSeriesOfDoses => Some(DoseNumberAndTotalSeriesOfDoses(e))
    case DateOfVaccination => formatDateString(e.dateOfVaccination)
    case CountryOfVaccination =>
      Some(if e.countryOfVaccination in countries then countries[e.countryOfVaccination] else e.countryOfVaccination)
    case CertificateIssuer => Some(e.certificateIssuer)
    case UniqueCertificateIdentifier => Some(e.uniqueCertificateIdentifier)
    case Unlisted(_) => None
  }

  /**
   * A coded field shows the value set's display text when the value sets,
   * the field's set and the code are all present, and the raw code otherwise.
   */
  lemma CodedFieldResolution(
    e: VaccinationEntry, keyPath: K.KeyPath, valueSets: Option<ValueSets>,
    countries: CountryTable, formatDateString: DateStringFormatter)
    requires CodedValueSet(keyPath).Some?
    ensures var t := CodedValueSet(keyPath).value;
            var code := Code(e, t);
            FormattedValue(e, keyPath, valueSets, countries, formatDateString)
            == if valueSets.Some? && t in valueSets.value && code in valueSets.value[t]
               then Some(valueSets.value[t][code])
               else Some(code)
  {
  }

  /** Without value sets every coded field shows its raw code. */
  lemma NoValueSetsShowsRawCode(
    e: VaccinationEntry, keyPath: K.KeyPath, countries: CountryTable, formatDateString: DateStringFormatter)
    requires CodedValueSet(keyPath).Some?
    ensures FormattedValue(e, keyPath, None, countries, formatDateString) == Some(Code(e, CodedValueSet(keyPath).value))
  {
  }

  /**
   * The dose number and the series total are shown as decimals that read
   * back as the entry's numbers, and the combined field is the dose count.
   */
  lemma DoseFieldsRenderNumbers(
    e: VaccinationEntry, valueSets: Option<ValueSets>, countries: CountryTable, formatDateString: DateStringFormatter)
    ensures ParseInt(FormattedValue(e, K.DoseNumber, valueSets, countries, formatDateString).value) == Some(e.doseNumber)
    ensures ParseInt(FormattedValue(e, K.TotalSeriesOfDoses, valueSets, countries, formatDateString).value)
         == Some(e.totalSeriesOfDoses)
    ensures IsCanonicalDecimal(FormattedValue(e, K.DoseNumber, valueSets, countries, formatDateString).value)
    ensures IsCanonicalDecimal(FormattedValue(e, K.TotalSeriesOfDoses, valueSets, countries, formatDateString).value)
    ensures FormattedValue(e, K.DoseNumberAndTotalSeriesOfDoses, valueSets, countries, formatDateString)
         == Some(DoseNumberAndTotalSeriesOfDoses(e))
  {
    IntStringRoundTrip(e.doseNumber);
    IntStringRoundTrip(e.totalSeriesOfDoses);
  }

  /** The country shows its localized name when the table knows it, else the raw code. */
  lemma CountryFallsBackToCode(
    e: VaccinationEntry, valueSets: Option<ValueSets>, countries: CountryTable, formatDateString: DateStringFormatter)
    ensures e.countryOfVaccination in countries ==>
      FormattedValue(e, K.CountryOfVaccination, valueSets, countries, formatDateString)
      == Some(countries[e.countryOfVaccination])
    ensures e.countryOfVaccination !in countries ==>
      FormattedValue(e, K.CountryOfVaccination, valueSets, countries, formatDateString)
      == Some(e.countryOfVaccination)
  {
  }

  /** A field has a value to show exactly when it has a caption, unless it is the date and that fails to format. */
  lemma ValueShownIffTitled(
    e: VaccinationEntry, keyPath: K.KeyPath, valueSets: Option<ValueSets>,
    countries: CountryTable, formatDateString: DateStringFormatter)
    requires keyPath != K.DateOfVaccination || formatDateString(e.dateOfVaccination).Some?
    ensures FormattedValue(e, keyPath, valueSets, countries, formatDateString).Some? <==> Title(keyPath).Some?
  {
  }
}
