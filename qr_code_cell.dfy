/**
 * The cell that shows one certificate's QR code with a title, a date line
 * and the button that starts its validation.
 */
module QRCodeCell {
  import opened Wrappers
  import opened HealthCertificates
  import opened VaccinationEntryFormatting
  import opened CertificateCell

  /**
   * The fields the initializer sets once. The QR image and the colours are
   * not part of the model.
   */
  datatype HealthCertificateQRCodeCellViewModel = HealthCertificateQRCodeCellViewModel(
    title: Option<Text>,
    subtitle: Option<Text>,
    accessibilityText: Option<Text>,
    healthCertificate: HealthCertificate)

  /** The time style of the date line: tests show the time of sampling, the others the day only. */
  function SubtitleTimeStyle(entry: Entry): TimeStyle {
    if entry.Test? then ShortTime else NoTime
  }

  /** The initializer. */
  function MakeQRCodeCellViewModel(
    healthCertificate: HealthCertificate, accessibilityText: Option<Text>, parseLocalDate: DateParser)
    : (vm: HealthCertificateQRCodeCellViewModel)
    ensures vm.title.Some? && vm.title.value == CertificateHeadline(TypeOf(healthCertificate))
    ensures vm.subtitle.Some? <==> EntryDate(healthCertificate.entry, parseLocalDate).Some?
    ensures vm.subtitle.Some? ==>
      && vm.subtitle.value.key == EntryDateCaption(healthCertificate.entry)
      && vm.subtitle.value.args == [DateArg(EntryDate(healthCertificate.entry, parseLocalDate).value, ShortDate,
                                            SubtitleTimeStyle(healthCertificate.entry))]
    ensures vm.accessibilityText == accessibilityText
    ensures vm.healthCertificate == healthCertificate
  {
    var (title, subtitle) :=
      match healthCertificate.entry
      case Vaccination(v) =>
        (Caption(VaccinationHeadline),
         match LocalVaccinationDate(v, parseLocalDate)
         case Some(d) => Some(Text(VaccinationDate, [DateArg(d, ShortDate, NoTime)]))
         case None => None)
      case Test(t) =>
        (Caption(TestHeadline),
         match t.sampleCollectionDate
         case Some(d) => Some(Text(SampleCollectionDate, [DateArg(d, ShortDate, ShortTime)]))
         case None => None)
      case Recovery(r) =>
        (Caption(RecoveryHeadline),
         match r.localCertificateValidityEndDate
         case Some(d) => Some(Text(ValidityDate, [DateArg(d, ShortDate, NoTime)]))
         case None => None);
    HealthCertificateQRCodeCellViewModel(Some(title), subtitle, accessibilityText, healthCertificate)
  }

  /** The certificate the validation callback is invoked with. */
  function DidTapValidationButton(vm: HealthCertificateQRCodeCellViewModel): HealthCertificate {
    vm.healthCertificate
  }

  /** Tapping the validation button hands over exactly the certificate the cell was built from. */
  lemma ValidationButtonForwardsCertificate(
    healthCertificate: HealthCertificate, accessibilityText: Option<Text>, parseLocalDate: DateParser)
    ensures DidTapValidationButton(MakeQRCodeCellViewModel(healthCertificate, accessibilityText, parseLocalDate))
         == healthCertificate
  {
  }

  /** The QR code cell's title is the list cell's headline. */
  lemma TitleIsListHeadline(
    healthCertificate: HealthCertificate, person: HealthCertifiedPerson,
    accessibilityText: Option<Text>, parseLocalDate: DateParser)
    ensures MakeQRCodeCellViewModel(healthCertificate, accessibilityText, parseLocalDate).title
         == Headline(HealthCertificateCellViewModel(healthCertificate, person))
  {
  }

  /**
   * The QR code cell's date line and the list cell's date line are shown
   * under the same condition, with the same caption and date; they differ
   * only for tests, where the QR code cell adds the time of day.
   */
  lemma SubtitleMatchesListDetail(
    healthCertificate: HealthCertificate, person: HealthCertifiedPerson,
    accessibilityText: Option<Text>, parseLocalDate: DateParser)
    ensures var subtitle := MakeQRCodeCellViewModel(healthCertificate, accessibilityText, parseLocalDate).subtitle;
            var detail := Detail(HealthCertificateCellViewModel(healthCertificate, person), parseLocalDate);
            && (subtitle.Some? <==> detail.Some?)
            && (!healthCertificate.entry.Test? ==> subtitle == detail)
            && (healthCertificate.entry.Test? && subtitle.Some? ==>
                  && subtitle.value.key == detail.value.key
                  && subtitle.value.args[0].date == detail.value.args[0].date
                  && subtitle.value.args[0].timeStyle == ShortTime
                  && detail.value.args[0].timeStyle == NoTime)
  {
  }
}
