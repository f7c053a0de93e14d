/**
 * The screen of one certified person: a table of five fixed sections
 * (header, QR code of the latest certificate, the "fully vaccinated" hint,
 * the person's name and the list of certificates), the mapping from index
 * paths to certificates, and which rows can be edited.
 */
module PersonViewModel {
  import opened Wrappers
  import opened HealthCertificates
  import opened CertificateCell
  import opened QRCodeCell

  datatype TableViewSection = Header | QrCode | FullyVaccinatedHint | Person | Certificates

  /** The raw value of a section: its position in declaration order. */
  function RawValue(section: TableViewSection): (r: nat) {
    match section
    case Header => 0
    case QrCode => 1
    case FullyVaccinatedHint => 2
    case Person => 3
    case Certificates => 4
  }

  /** `TableViewSection(rawValue:)`. */
  function SectionFromRawValue(raw: int): (r: Option<TableViewSection>)
    ensures r.Some? <==> 0 <= raw < 5
    ensures r.Some? ==> RawValue(r.value) == raw
  {
    if raw == 0 then Some(Header)
    else if raw == 1 then Some(QrCode)
    else if raw == 2 then Some(FullyVaccinatedHint)
    else if raw == 3 then Some(Person)
    else if raw == 4 then Some(Certificates)
    else None
  }

  /** `allCases`, in declaration order. */
  function AllCases(): (r: seq<TableViewSection>)
    ensures forall i :: 0 <= i < |r| ==> RawValue(r[i]) == i
    ensures |r| == 5 && forall s :: RawValue(s) < |r| && r[RawValue(s)] == s
  {
    [Header, QrCode, FullyVaccinatedHint, Person, Certificates]
  }

  /** `numberOfSections`: the number of cases. */
  function NumberOfSections(): (r: int)
    ensures r == 5
  {
    |AllCases()|
  }

  /** Raw values and sections convert into each other without loss. */
  lemma SectionRawValueRoundTrip(section: TableViewSection)
    ensures SectionFromRawValue(RawValue(section)) == Some(section)
    ensures AllCases()[RawValue(section)] == section
  {
  }

  /** A raw value the table can ask for names a section; any other one is a fatal error. */
  predicate IsSupportedSection(raw: int) {
    SectionFromRawValue(raw).Some?
  }

  /** `TableViewSection.map`, defined only on supported raw values. */
  function MapSection(raw: int): (r: TableViewSection)
    requires IsSupportedSection(raw)
    ensures RawValue(r) == raw
  {
    SectionFromRawValue(raw).value
  }

  datatype IndexPath = IndexPath(section: int, row: int)

  function FullyVaccinatedHintIsVisible(person: HealthCertifiedPerson): (r: bool)
    ensures r <==> person.vaccinationState.FullyVaccinated?
  {
    match person.vaccinationState
    case FullyVaccinated(_) => true
    case _ => false
  }

  function NumberOfItems(person: HealthCertifiedPerson, section: TableViewSection): (r: nat)
    ensures section in {Header, QrCode, Person} ==> r == 1
    ensures section == FullyVaccinatedHint ==> (r == 1 <==> person.vaccinationState.FullyVaccinated?) && r <= 1
    ensures section == Certificates ==> r == |person.vaccinationCertificates|
  {
    match section
    case Header => 1
    case QrCode => 1
    case FullyVaccinatedHint => if FullyVaccinatedHintIsVisible(person) then 1 else 0
    case Person => 1
    case Certificates => |person.vaccinationCertificates|
  }

  /** The number of days until complete protection does not change the row counts. */
  lemma RowCountsIgnoreDays(person: HealthCertifiedPerson, days: int, section: TableViewSection)
    requires person.vaccinationState.FullyVaccinated?
    ensures NumberOfItems(person, section)
         == NumberOfItems(person.(vaccinationState := FullyVaccinated(days)), section)
  {
  }

  /** `healthCertificate(for:)`: the certificate of a row of the certificates section. */
  function HealthCertificateAt(person: HealthCertifiedPerson, indexPath: IndexPath): (r: Option<HealthCertificate>)
    requires IsSupportedSection(indexPath.section)
    ensures r.Some? <==>
      indexPath.section == RawValue(Certificates) && 0 <= indexPath.row < |person.vaccinationCertificates|
    ensures r.Some? ==> r.value == person.vaccinationCertificates[indexPath.row]
  {
    if MapSection(indexPath.section) == Certificates && 0 <= indexPath.row < |person.vaccinationCertificates| then
      Some(person.vaccinationCertificates[indexPath.row])
    else
      None
  }

  /** Every row the certificates section reports resolves to the certificate at that position, and to no other. */
  lemma CertificateRowsResolve(person: HealthCertifiedPerson, row: int)
    ensures var indexPath := IndexPath(RawValue(Certificates), row);
      && IsSupportedSection(indexPath.section)
      && (0 <= row < NumberOfItems(person, Certificates) ==>
            HealthCertificateAt(person, indexPath) == Some(person.vaccinationCertificates[row]))
      && (!(0 <= row < NumberOfItems(person, Certificates)) ==> HealthCertificateAt(person, indexPath).None?)
  {
    SectionRawValueRoundTrip(Certificates);
  }

  function CanEditRow(person: HealthCertifiedPerson, indexPath: IndexPath): (r: bool)
    requires IsSupportedSection(indexPath.section)
    ensures r <==> indexPath.section == RawValue(Certificates)
  {
    MapSection(indexPath.section) == Certificates
  }

  /** A row that resolves to a certificate can be edited. */
  lemma ResolvableRowsAreEditable(person: HealthCertifiedPerson, indexPath: IndexPath)
    requires IsSupportedSection(indexPath.section)
    requires HealthCertificateAt(person, indexPath).Some?
    ensures CanEditRow(person, indexPath)
  {
  }

  /**
   * Whether `removeHealthCertificate(at:)` can run: the section must be
   * supported, and in the certificates section the row must be a valid
   * index, since it is used without a check.
   */
  predicate CanRemove(person: HealthCertifiedPerson, indexPath: IndexPath) {
    && IsSupportedSection(indexPath.section)
    && (MapSection(indexPath.section) == Certificates ==> 0 <= indexPath.row < |person.vaccinationCertificates|)
  }

  /** The certificate `removeHealthCertificate(at:)` hands to the service, if any. */
  function RemovalTarget(person: HealthCertifiedPerson, indexPath: IndexPath): (r: Option<HealthCertificate>)
    requires CanRemove(person, indexPath)
    ensures r.None? <==> indexPath.section != RawValue(Certificates)
    ensures r.Some? ==> r.value == person.vaccinationCertificates[indexPath.row]
  {
    if MapSection(indexPath.section) != Certificates then None
    else Some(person.vaccinationCertificates[indexPath.row])
  }

  /** Removal targets exactly the certificate the row shows, and only on an editable row. */
  lemma RemovalTargetsSelectedCertificate(person: HealthCertifiedPerson, indexPath: IndexPath)
    requires CanRemove(person, indexPath)
    ensures RemovalTarget(person, indexPath) == HealthCertificateAt(person, indexPath)
    ensures RemovalTarget(person, indexPath).Some? <==> CanEditRow(person, indexPath)
  {
  }

  /** The certificate service, seen through the removal requests it has received. */
  class HealthCertificateService {
    var removalRequests: seq<HealthCertificate>

    constructor ()
      ensures removalRequests == []
    {
      removalRequests := [];
    }

    method RemoveHealthCertificate(healthCertificate: HealthCertificate)
      modifies this
      ensures removalRequests == old(removalRequests) + [healthCertificate]
    {
      removalRequests := removalRequests + [healthCertificate];
    }
  }

  /** `removeHealthCertificate(at:)`: forwards the row's certificate to the service, or does nothing. */
  method RemoveHealthCertificate(person: HealthCertifiedPerson, indexPath: IndexPath, service: HealthCertificateService)
    requires CanRemove(person, indexPath)
    modifies service
    ensures RemovalTarget(person, indexPath).None? ==> service.removalRequests == old(service.removalRequests)
    ensures RemovalTarget(person, indexPath).Some? ==>
      service.removalRequests == old(service.removalRequests) + [RemovalTarget(person, indexPath).value]
  {
    if MapSection(indexPath.section) != Certificates {
      return;
    }
    service.RemoveHealthCertificate(person.vaccinationCertificates[indexPath.row]);
  }

  /** The QR code row shows the last certificate of the list, which must not be empty. */
  function QRCodeCellViewModel(person: HealthCertifiedPerson, parseLocalDate: DateParser)
    : (vm: HealthCertificateQRCodeCellViewModel)
    requires |person.vaccinationCertificates| > 0
    ensures vm.healthCertificate == person.vaccinationCertificates[|person.vaccinationCertificates| - 1]
    ensures vm.accessibilityText == Some(Caption(QRCodeImageDescription))
    ensures vm.title.Some?
  {
    var certificates := person.vaccinationCertificates;
    MakeQRCodeCellViewModel(certificates[|certificates| - 1], Some(Caption(QRCodeImageDescription)), parseLocalDate)
  }

  /** The hint row's text, which exists only for a fully vaccinated person and carries their day count. */
  function FullyVaccinatedHintText(person: HealthCertifiedPerson): (r: Text)
    requires person.vaccinationState.FullyVaccinated?
    ensures r.key == DaysUntilCompleteProtection
    ensures r.args == [IntArg(person.vaccinationState.daysUntilCompleteProtection)]
  {
    match person.vaccinationState
    case FullyVaccinated(days) => Text(DaysUntilCompleteProtection, [IntArg(days)])
  }

  /** The list cell of a certificate row; the row is used as an index without a check. */
  function HealthCertificateCellViewModelAt(person: HealthCertifiedPerson, row: int)
    : (vm: HealthCertificateCellViewModel)
    requires 0 <= row < |person.vaccinationCertificates|
    ensures vm.healthCertificate == person.vaccinationCertificates[row]
    ensures vm.healthCertifiedPerson == person
  {
    HealthCertificateCellViewModel(person.vaccinationCertificates[row], person)
  }

  /** Whether the cell of a row can be built: the QR code cell needs a certificate, the hint cell a fully vaccinated person. */
  predicate CellIsAvailable(person: HealthCertifiedPerson, section: TableViewSection, row: int) {
    match section
    case Header => true
    case QrCode => |person.vaccinationCertificates| > 0
    case FullyVaccinatedHint => person.vaccinationState.FullyVaccinated?
    case Person => true
    case Certificates => 0 <= row < |person.vaccinationCertificates|
  }

  /** While the person has a certificate, every row the table reports can be built. */
  lemma ReportedRowsAreAvailable(person: HealthCertifiedPerson, section: TableViewSection, row: int)
    requires |person.vaccinationCertificates| > 0
    requires 0 <= row < NumberOfItems(person, section)
    ensures CellIsAvailable(person, section, row)
  {
  }

  /**
   * Without certificates the QR code section still reports its row, whose
   * cell cannot be built; a caller must not request this cell while the list is empty.
   */
  lemma EmptyListStillReportsQRCodeRow(state: VaccinationState, mostRelevant: Option<HealthCertificate>)
    ensures var person := HealthCertifiedPerson([], state, mostRelevant);
      NumberOfItems(person, QrCode) == 1 && !CellIsAvailable(person, QrCode, 0)
  {
  }

  /** The rows of the certificates section that are highlighted as currently used. */
  function HighlightedRows(person: HealthCertifiedPerson): set<int> {
    set row | 0 <= row < |person.vaccinationCertificates|
              && IsCurrentlyUsedCertificateHintVisible(HealthCertificateCellViewModelAt(person, row))
  }

  /**
   * When the certificates are pairwise different, at most one row is
   * highlighted, and exactly one when the most relevant certificate is in
   * the list.
   */
  lemma {:induction false} AtMostOneHighlightedRow(person: HealthCertifiedPerson)
    requires var certificates := person.vaccinationCertificates;
      forall i, j :: 0 <= i < j < |certificates| ==> certificates[i] != certificates[j]
    ensures |HighlightedRows(person)| <= 1
    ensures person.mostRelevantHealthCertificate.Some?
            && person.mostRelevantHealthCertificate.value in person.vaccinationCertificates
            ==> |HighlightedRows(person)| == 1
  {
    var certificates, rows := person.vaccinationCertificates, HighlightedRows(person);
    if row :| row in rows {
      forall other | other in rows ensures other == row {
        assert certificates[other] == person.mostRelevantHealthCertificate.value == certificates[row];
      }
      assert rows == {row};
    } else {
      assert rows == {};
      forall i | 0 <= i < |certificates|
        ensures Some(certificates[i]) != person.mostRelevantHealthCertificate
      {
        assert i !in rows;
      }
    }
  }

  /**
   * Two vaccinations, the second completing the series, for a person who is
   * fully vaccinated and whose most relevant certificate is the second one.
   */
  lemma TwoDoseExample(a: HealthCertificate, b: HealthCertificate, parseLocalDate: DateParser)
    requires a.entry.Vaccination? && a.entry.vaccinationEntry.doseNumber == 1
          && a.entry.vaccinationEntry.totalSeriesOfDoses == 2
    requires b.entry.Vaccination? && b.entry.vaccinationEntry.doseNumber == 2
          && b.entry.vaccinationEntry.totalSeriesOfDoses == 2
    ensures var person := HealthCertifiedPerson([a, b], FullyVaccinated(5), Some(b));
      && (forall s :: s in AllCases() ==> NumberOfItems(person, s) == if s == Certificates then 2 else 1)
      && Headline(HealthCertificateCellViewModelAt(person, 1)) == Some(Caption(VaccinationHeadline))
      && Subheadline(HealthCertificateCellViewModelAt(person, 1)) == Some(Text(VaccinationCount, [IntArg(2), IntArg(2)]))
      && Image(HealthCertificateCellViewModelAt(person, 1)) == FullyVaccinatedIcon
      && Image(HealthCertificateCellViewModelAt(person, 0)) == PartiallyVaccinatedIcon
      && Gradient(HealthCertificateCellViewModelAt(person, 1)) == LightBlue(withStars := false)
      && Gradient(HealthCertificateCellViewModelAt(person, 0)) == SolidGrey
      && QRCodeCellViewModel(person, parseLocalDate).healthCertificate == b
  {
  }
}
