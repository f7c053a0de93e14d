/**
 * The cell that lists one certificate on the person's screen: its
 * headline, subheadline, date line, icon and whether it is highlighted as
 * the certificate currently in use.
 */
module CertificateCell {
  import opened Wrappers
  import opened HealthCertificates
  import opened VaccinationEntryFormatting

  /** The two gradients the cell uses. */
  datatype GradientType = LightBlue(withStars: bool) | SolidGrey

  /** The image the cell shows, as a key for one of the five image literals of the asset catalogue. */
  datatype IconKey =
    | CompletelyProtectedIcon
    | FullyVaccinatedIcon
    | PartiallyVaccinatedIcon
    | TestCertificateIcon
    | RecoveryCertificateIcon

  /** The view model is built from the certificate and the person it belongs to. */
  datatype HealthCertificateCellViewModel = HealthCertificateCellViewModel(
    healthCertificate: HealthCertificate,
    healthCertifiedPerson: HealthCertifiedPerson)

  function Gradient(vm: HealthCertificateCellViewModel): (r: GradientType)
    ensures r == LightBlue(withStars := false) <==>
      Some(vm.healthCertificate) == vm.healthCertifiedPerson.mostRelevantHealthCertificate
    ensures r != LightBlue(withStars := false) ==> r == SolidGrey
  {
    if Some(vm.healthCertificate) == vm.healthCertifiedPerson.mostRelevantHealthCertificate then
      LightBlue(withStars := false)
    else
      SolidGrey
  }

  function Headline(vm: HealthCertificateCellViewModel): (r: Option<Text>)
    ensures r.Some? && r.value.args == []
    ensures r.value.key == VaccinationHeadline <==> vm.healthCertificate.entry.Vaccination?
    ensures r.value.key == TestHeadline <==> vm.healthCertificate.entry.Test?
    ensures r.value.key == RecoveryHeadline <==> vm.healthCertificate.entry.Recovery?
  {
    Some(CertificateHeadline(TypeOf(vm.healthCertificate)))
  }

  /** The headline depends on the certificate type alone, not on the entry's data or the person. */
  lemma HeadlineDependsOnlyOnType(vm: HealthCertificateCellViewModel, other: HealthCertificateCellViewModel)
    requires TypeOf(vm.healthCertificate) == TypeOf(other.healthCertificate)
    ensures Headline(vm) == Headline(other)
  {
  }

  function Subheadline(vm: HealthCertificateCellViewModel): (r: Option<Text>)
    ensures vm.healthCertificate.entry.Vaccination? ==>
      var v := vm.healthCertificate.entry.vaccinationEntry;
      r == Some(Text(VaccinationCount, [IntArg(v.doseNumber), IntArg(v.totalSeriesOfDoses)]))
    ensures vm.healthCertificate.entry.Test? ==>
      var t := vm.healthCertificate.entry.testEntry.coronaTestType;
      && (r == Some(Caption(PcrTest)) <==> t == Some(Pcr))
      && (r == Some(Caption(AntigenTest)) <==> t == Some(Antigen))
      && (r.None? <==> t.None?)
    ensures vm.healthCertificate.entry.Recovery? ==> r.None?
  {
    match vm.healthCertificate.entry
    case Vaccination(v) =>
      Some(Text(VaccinationCount, [IntArg(v.doseNumber), IntArg(v.totalSeriesOfDoses)]))
    case Test(t) =>
      (match t.coronaTestType
       case Some(Pcr) => Some(Caption(PcrTest))
       case Some(Antigen) => Some(Caption(AntigenTest))
       case None => None)  // the test type could not be determined
    case Recovery(_) => None
  }

  /**
   * The date each kind of entry shows: the vaccination date parsed as a
   * local date, the sample collection date, or the end of validity.
   */
  function EntryDate(entry: Entry, parseLocalDate: DateParser): Option<Date> {
    match entry
    case Vaccination(v) => LocalVaccinationDate(v, parseLocalDate)
    case Test(t) => t.sampleCollectionDate
    case Recovery(r) => r.localCertificateValidityEndDate
  }

  /** The caption that frames the entry's date. */
  function EntryDateCaption(entry: Entry): AppString {
    match entry
    case Vaccination(_) => VaccinationDate
    case Test(_) => SampleCollectionDate
    case Recovery(_) => ValidityDate
  }

  /** The date line: shown exactly when the entry's date is there, always as a short date without time. */
  function Detail(vm: HealthCertificateCellViewModel, parseLocalDate: DateParser): (r: Option<Text>)
    ensures r.Some? <==> EntryDate(vm.healthCertificate.entry, parseLocalDate).Some?
    ensures r.Some? ==>
      && r.value.key == EntryDateCaption(vm.healthCertificate.entry)
      && r.value.args == [DateArg(EntryDate(vm.healthCertificate.entry, parseLocalDate).value, ShortDate, NoTime)]
  {
    var entry := vm.healthCertificate.entry;
    match EntryDate(entry, parseLocalDate)
    case Some(d) => Some(Text(EntryDateCaption(entry), [DateArg(d, ShortDate, NoTime)]))
    case None => None
  }

  /** A vaccination date that does not parse leaves the cell without its date line. */
  lemma UnparsableVaccinationDateHidesDetail(vm: HealthCertificateCellViewModel, parseLocalDate: DateParser)
    requires vm.healthCertificate.entry.Vaccination?
    requires parseLocalDate(vm.healthCertificate.entry.vaccinationEntry.dateOfVaccination).None?
    ensures Detail(vm, parseLocalDate).None?
  {
  }

  function Image(vm: HealthCertificateCellViewModel): (r: IconKey)
    ensures var entry, state := vm.healthCertificate.entry, vm.healthCertifiedPerson.vaccinationState;
      && (r == CompletelyProtectedIcon <==>
            entry.Vaccination? && IsLastDoseInASeries(entry.vaccinationEntry) && state.CompletelyProtected?)
      && (r == FullyVaccinatedIcon <==>
            entry.Vaccination? && IsLastDoseInASeries(entry.vaccinationEntry) && !state.CompletelyProtected?)
      && (r == PartiallyVaccinatedIcon <==> entry.Vaccination? && !IsLastDoseInASeries(entry.vaccinationEntry))
      && (r == TestCertificateIcon <==> entry.Test?)
      && (r == RecoveryCertificateIcon <==> entry.Recovery?)
  {
    match vm.healthCertificate.entry
    case Vaccination(v) =>
      if IsLastDoseInASeries(v) then
        if vm.healthCertifiedPerson.vaccinationState.CompletelyProtected? then CompletelyProtectedIcon
        else FullyVaccinatedIcon
      else PartiallyVaccinatedIcon
    case Test(_) => TestCertificateIcon
    case Recovery(_) => RecoveryCertificateIcon
  }

  /** Only the last dose of a vaccination series looks at the vaccination state. */
  lemma IconIgnoresStateUnlessLastDose(vm: HealthCertificateCellViewModel, state: VaccinationState)
    requires !(vm.healthCertificate.entry.Vaccination? && IsLastDoseInASeries(vm.healthCertificate.entry.vaccinationEntry))
    ensures Image(vm) == Image(vm.(healthCertifiedPerson := vm.healthCertifiedPerson.(vaccinationState := state)))
  {
  }

  /** Whether the cell's certificate is the one the store picked as most relevant. */
  predicate IsCurrentlyUsedCertificateHintVisible(vm: HealthCertificateCellViewModel) {
    Some(vm.healthCertificate) == vm.healthCertifiedPerson.mostRelevantHealthCertificate
  }

  /** The "currently used" hint and the light-blue gradient always go together. */
  lemma HintVisibleIffHighlighted(vm: HealthCertificateCellViewModel)
    ensures IsCurrentlyUsedCertificateHintVisible(vm) <==> Gradient(vm) == LightBlue(withStars := false)
  {
  }
}
