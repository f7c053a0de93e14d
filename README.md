# Health certificate presentation, modelled in Dafny

This project models the rules behind the screen that shows one person's
health certificates in the Corona-Warn-App iOS client. A certificate
carries exactly one entry: a vaccination, a test or a recovery. The person
has an aggregate vaccination state: not vaccinated, incomplete, fully
vaccinated with a number of days until complete protection, or completely
protected. From these the app derives:

- **Field formatter** (`vaccination_entry.dfy`). It tells whether a dose
  is the last one of its series and renders the dose count as "X of Y". It
  has a caption table for the entry's fields, and a value table that
  resolves coded fields through the downloaded value sets and falls back to
  the raw code.
- **Entry classifier** (`certificate_cell.dfy`, `qr_code_cell.dfy`). For
  each entry kind it picks the headline, the subheadline, whether a date
  line is shown and in which style, and the icon (which also depends on the
  vaccination state). It also decides whether the certificate is
  highlighted: that happens when it is the person's most relevant
  certificate.
- **Person aggregator** (`person_view_model.dfy`). The table has five
  fixed sections. The model covers their raw values, the row count of each
  section, how an index path resolves to a certificate, which rows can be
  edited, which certificate a removal targets, and the certificate behind
  the QR code row.

The supporting files are `wrappers.dfy` (an `Option` for Swift's optionals),
`certificates.dfy` (the certificate, entry, person and localized-string
types) and `decimal.dfy` (Swift's decimal rendering of `Int`, with a parser
that reads it back).

Conventions of the model:

- A localized string from `AppStrings` is a key. `String(format:)` becomes
  `Text(key, args)`. `DateFormatter.localizedString(from:dateStyle:timeStyle:)`
  becomes a `DateArg` that carries the date and both styles.
- The local-date parser behind `localVaccinationDate` is a function
  parameter `string -> Option<Date>`. `DCCDateStringFormatter` is a
  parameter `string -> Option<string>`.
- The value sets are an optional map from set to (code → display text).
  The country table is a map from country code to localized name.
- The person is a value snapshot. It includes the store's
  `mostRelevantHealthCertificate`, which is an input: no rule here says
  which certificate it is.
- Certificates are compared by value.
- `healthCertificate.type` is not defined in the modelled files; `TypeOf`
  assumes it is the kind of the certificate's entry.
- The image literals become an `IconKey`, one key per literal name.

Points where the code does something a reader might not expect:

- The QR code section always reports one row (`HealthCertifiedPersonViewModel.swift:178-179`),
  even when the list is empty, and building that row's cell hits a fatal
  error when the list is empty (lines 109-112). The `objectDidChange`
  subscription (lines 30-39) dismisses the screen whenever it is notified
  while the list is empty. Nothing in the modelled files makes it run
  before the QR code cell is requested, in particular not when the list is
  already empty when the view model is built.
  `EmptyListStillReportsQRCodeRow` states the gap.
- The highlighted certificate is the store's most relevant one, which need
  not be the last in the list. The QR code row does use the last
  certificate.
- The vaccination subheadline is the localized count format filled with
  the dose and the total. It is not the literal "X of Y" string; that
  string is `doseNumberAndTotalSeriesOfDoses`, which only the key-path
  tables of the vaccination entry use.
- `healthCertificateCellViewModel(row:)` passes `gradientType:` to
  `HealthCertificateCellViewModel`, whose initializer (`HealthCertificateCellViewModel.swift:11-17`) takes the
  person instead. `HealthCertificateCellViewModelAt` builds the cell with
  that initializer. Likewise `qrCodeCellViewModel` passes no
  `onValidationButtonTap`.

## Model

| member | source | states |
|---|---|---|
| `HealthCertificates.TypeOf` | src/xcode/ENA/ENA/Source/Scenes/HealthCertificates/HealthCertifiedPerson/Cells/HealthCertificate/HealthCertificateCellViewModel.swift:30-37 | The certificate type is vaccination, test or recovery exactly when the entry is of that kind |
| `Decimal.IntString` | src/xcode/ENA/ENA/Source/Services/HealthCertificate/Models/Extensions/VaccinationEntry+Extension.swift:71-74 | `String(n)` is in canonical decimal form: a minus sign exactly for negative numbers, digits only after it, no leading zero except in "0" |
| `Decimal.CanonicalDecimalIsIntString` | src/xcode/ENA/ENA/Source/Services/HealthCertificate/Models/Extensions/VaccinationEntry+Extension.swift:71-74 | A canonical decimal that reads as `n` is exactly `String(n)`: the canonical form of a number is unique |
| `Decimal.IntStringRoundTrip` | src/xcode/ENA/ENA/Source/Services/HealthCertificate/Models/Extensions/VaccinationEntry+Extension.swift:71-74 | The decimal rendering of any integer, negative ones included, parses back to that integer |
| `VaccinationEntryFormatting.LastDoseIffRenderedNumbersAgree` | src/xcode/ENA/ENA/Source/Services/HealthCertificate/Models/Extensions/VaccinationEntry+Extension.swift:10-12 | `IsLastDoseInASeries`: a dose is the last of its series exactly when the dose number and the series total render as the same text |
| `VaccinationEntryFormatting.DoseNumberAndTotalSeriesOfDosesRoundTrip` | src/xcode/ENA/ENA/Source/Services/HealthCertificate/Models/Extensions/VaccinationEntry+Extension.swift:18-20 | `DoseNumberAndTotalSeriesOfDoses`: splitting "X of Y" at the first " of " and parsing both halves gives back the dose number and the series total |
| `VaccinationEntryFormatting.Title` | src/xcode/ENA/ENA/Source/Services/HealthCertificate/Models/Extensions/VaccinationEntry+Extension.swift:23-50 | A caption exists exactly for the eleven listed fields; the dose number and the dose count get the same caption |
| `VaccinationEntryFormatting.OnlyDoseFieldsShareATitle` | src/xcode/ENA/ENA/Source/Services/HealthCertificate/Models/Extensions/VaccinationEntry+Extension.swift:33-38 | Two different fields share a caption only if they are the dose number and the dose count |
| `VaccinationEntryFormatting.FormattedValue` | src/xcode/ENA/ENA/Source/Services/HealthCertificate/Models/Extensions/VaccinationEntry+Extension.swift:53-88 | Unlisted fields have no value; every listed field except the date has one; the date is whatever the date-string formatter makes of it; issuer and identifier pass through verbatim |
| `VaccinationEntryFormatting.CodedFieldResolution` | src/xcode/ENA/ENA/Source/Services/HealthCertificate/Models/Extensions/VaccinationEntry+Extension.swift:55-70 | Each of the four coded fields shows `valueSets[set][code]` when the value sets, the set and the code are all present, and the raw code otherwise |
| `VaccinationEntryFormatting.NoValueSetsShowsRawCode` | src/xcode/ENA/ENA/Source/Services/HealthCertificate/Models/Extensions/VaccinationEntry+Extension.swift:55-70 | Without value sets each coded field shows its raw code |
| `VaccinationEntryFormatting.DoseFieldsRenderNumbers` | src/xcode/ENA/ENA/Source/Services/HealthCertificate/Models/Extensions/VaccinationEntry+Extension.swift:71-76 | The dose number and the series total are shown in canonical decimal form (optional minus, no leading zeros) and parse back to the numbers, so by `Decimal.CanonicalDecimalIsIntString` the text is exactly `String(n)`; the combined field is the "X of Y" text |
| `VaccinationEntryFormatting.CountryFallsBackToCode` | src/xcode/ENA/ENA/Source/Services/HealthCertificate/Models/Extensions/VaccinationEntry+Extension.swift:79-80 | A known country code shows its localized name; an unknown one shows the code |
| `VaccinationEntryFormatting.ValueShownIffTitled` | src/xcode/ENA/ENA/Source/Services/HealthCertificate/Models/Extensions/VaccinationEntry+Extension.swift:23-88 | When the date formats, a field has a value exactly when it has a caption |
| `CertificateCell.UnparsableVaccinationDateHidesDetail` | src/xcode/ENA/ENA/Source/Services/HealthCertificate/Models/Extensions/VaccinationEntry+Extension.swift:14-16 | `LocalVaccinationDate` (the parse of `dateOfVaccination`): a vaccination date that does not parse as a local date leaves the list cell without a date line |
| `CertificateCell.Gradient` | src/xcode/ENA/ENA/Source/Scenes/HealthCertificates/HealthCertifiedPerson/Cells/HealthCertificate/HealthCertificateCellViewModel.swift:21-27 | The gradient is light blue without stars exactly when the certificate is the person's most relevant one, and solid grey otherwise |
| `CertificateCell.HintVisibleIffHighlighted` | src/xcode/ENA/ENA/Source/Scenes/HealthCertificates/HealthCertifiedPerson/Cells/HealthCertificate/HealthCertificateCellViewModel.swift:105-107 | `IsCurrentlyUsedCertificateHintVisible`: the "currently used" hint is visible exactly when the gradient is light blue |
| `CertificateCell.Headline` | src/xcode/ENA/ENA/Source/Scenes/HealthCertificates/HealthCertifiedPerson/Cells/HealthCertificate/HealthCertificateCellViewModel.swift:29-38 | The headline is always present, has no arguments, and is the vaccination, test or recovery headline exactly for that kind of entry |
| `CertificateCell.HeadlineDependsOnlyOnType` | src/xcode/ENA/ENA/Source/Scenes/HealthCertificates/HealthCertifiedPerson/Cells/HealthCertificate/HealthCertificateCellViewModel.swift:29-38 | Two cells whose certificates have the same type have the same headline, whatever the entries hold and whoever the person is |
| `CertificateCell.Subheadline` | src/xcode/ENA/ENA/Source/Scenes/HealthCertificates/HealthCertifiedPerson/Cells/HealthCertificate/HealthCertificateCellViewModel.swift:40-58 | Vaccination: the count caption with dose and total. Test: the PCR caption exactly for PCR, the antigen caption exactly for antigen, and nil exactly when the type is undetermined. Recovery: nil |
| `CertificateCell.Detail` | src/xcode/ENA/ENA/Source/Scenes/HealthCertificates/HealthCertifiedPerson/Cells/HealthCertificate/HealthCertificateCellViewModel.swift:60-84 | The date line is present exactly when the entry's date is. It uses the entry's date caption, and the date is in short style without time, for tests too |
| `CertificateCell.Image` | src/xcode/ENA/ENA/Source/Scenes/HealthCertificates/HealthCertifiedPerson/Cells/HealthCertificate/HealthCertificateCellViewModel.swift:86-103 | Completely-protected icon exactly for a last dose of a completely protected person; fully-vaccinated exactly for a last dose otherwise; partially-vaccinated exactly for an earlier dose; test and recovery icons exactly for those entries |
| `CertificateCell.IconIgnoresStateUnlessLastDose` | src/xcode/ENA/ENA/Source/Scenes/HealthCertificates/HealthCertifiedPerson/Cells/HealthCertificate/HealthCertificateCellViewModel.swift:89-96 | Unless the entry is the last dose of a vaccination series, changing the vaccination state does not change the icon |
| `QRCodeCell.MakeQRCodeCellViewModel` | src/xcode/ENA/ENA/Source/Scenes/HealthCertificates/Cells/HealthCertificateQRCodeCellViewModel.swift:11-56 | The title is always the type's headline. The subtitle is present exactly when the entry's date is, with the entry's date caption; it has a short date, plus a short time for tests only. The accessibility text is stored as passed |
| `QRCodeCell.ValidationButtonForwardsCertificate` | src/xcode/ENA/ENA/Source/Scenes/HealthCertificates/Cells/HealthCertificateQRCodeCellViewModel.swift:67-71 | `DidTapValidationButton`: tapping the validation button hands the callback exactly the certificate the cell was built from |
| `QRCodeCell.TitleIsListHeadline` | src/xcode/ENA/ENA/Source/Scenes/HealthCertificates/Cells/HealthCertificateQRCodeCellViewModel.swift:30-55 | The QR code cell's title equals the list cell's headline for the same certificate |
| `QRCodeCell.SubtitleMatchesListDetail` | src/xcode/ENA/ENA/Source/Scenes/HealthCertificates/Cells/HealthCertificateQRCodeCellViewModel.swift:33-54 | The QR subtitle and the list cell's date line appear under the same condition. They are equal for vaccinations and recoveries. For tests they share caption and date; the QR cell adds the time, the list cell does not |
| `PersonViewModel.SectionFromRawValue` | src/xcode/ENA/ENA/Source/Scenes/HealthCertificates/HealthCertifiedPerson/HealthCertifiedPersonViewModel.swift:52-58 | A raw value names a section exactly when it is 0 to 4, and that section's raw value is the one given |
| `PersonViewModel.AllCases` | src/xcode/ENA/ENA/Source/Scenes/HealthCertificates/HealthCertifiedPerson/HealthCertifiedPersonViewModel.swift:52-61 | There are five sections; the i-th of them has raw value i, and every section sits at the position of its raw value |
| `PersonViewModel.SectionRawValueRoundTrip` | src/xcode/ENA/ENA/Source/Scenes/HealthCertificates/HealthCertifiedPerson/HealthCertifiedPersonViewModel.swift:52-58 | Converting a section to its raw value and back gives the section again |
| `PersonViewModel.NumberOfSections` | src/xcode/ENA/ENA/Source/Scenes/HealthCertificates/HealthCertifiedPerson/HealthCertifiedPersonViewModel.swift:59-61 | The table has exactly five sections, the number of cases of the section enumeration |
| `PersonViewModel.MapSection` | src/xcode/ENA/ENA/Source/Scenes/HealthCertificates/HealthCertifiedPerson/HealthCertifiedPersonViewModel.swift:63-68 | `map` is defined only on the raw values 0 to 4 (anything else is a fatal error) and returns the section with that raw value |
| `PersonViewModel.FullyVaccinatedHintIsVisible` | src/xcode/ENA/ENA/Source/Scenes/HealthCertificates/HealthCertifiedPerson/HealthCertifiedPersonViewModel.swift:139-145 | The hint is visible exactly in the fully-vaccinated state, whatever its day count |
| `PersonViewModel.NumberOfItems` | src/xcode/ENA/ENA/Source/Scenes/HealthCertificates/HealthCertifiedPerson/HealthCertifiedPersonViewModel.swift:174-187 | Header, QR code and person have one row each. The hint has at most one row, and one exactly when fully vaccinated. Certificates have one row per certificate |
| `PersonViewModel.RowCountsIgnoreDays` | src/xcode/ENA/ENA/Source/Scenes/HealthCertificates/HealthCertifiedPerson/HealthCertifiedPersonViewModel.swift:180-181 | Changing the day count of a fully vaccinated person changes no row count |
| `PersonViewModel.HealthCertificateAt` | src/xcode/ENA/ENA/Source/Scenes/HealthCertificates/HealthCertifiedPerson/HealthCertifiedPersonViewModel.swift:196-202 | An index path resolves exactly when its section is the certificates section and its row is a valid index; it then resolves to the certificate at that row |
| `PersonViewModel.CertificateRowsResolve` | src/xcode/ENA/ENA/Source/Scenes/HealthCertificates/HealthCertifiedPerson/HealthCertifiedPersonViewModel.swift:174-202 | In the certificates section, every row below the reported row count resolves to the certificate at that position, and every other row resolves to nothing |
| `PersonViewModel.CanEditRow` | src/xcode/ENA/ENA/Source/Scenes/HealthCertificates/HealthCertifiedPerson/HealthCertifiedPersonViewModel.swift:204-206 | A row can be edited exactly when it is in the certificates section |
| `PersonViewModel.ResolvableRowsAreEditable` | src/xcode/ENA/ENA/Source/Scenes/HealthCertificates/HealthCertifiedPerson/HealthCertifiedPersonViewModel.swift:196-206 | Every row that resolves to a certificate can be edited |
| `PersonViewModel.RemovalTarget` | src/xcode/ENA/ENA/Source/Scenes/HealthCertificates/HealthCertifiedPerson/HealthCertifiedPersonViewModel.swift:208-214 | Outside the certificates section removal targets nothing. Inside it, it targets the certificate at the row, which must be a valid index |
| `PersonViewModel.RemovalTargetsSelectedCertificate` | src/xcode/ENA/ENA/Source/Scenes/HealthCertificates/HealthCertifiedPerson/HealthCertifiedPersonViewModel.swift:196-214 | The removal target is the certificate the index path resolves to, and exists exactly for editable rows |
| `PersonViewModel.RemoveHealthCertificate` | src/xcode/ENA/ENA/Source/Scenes/HealthCertificates/HealthCertifiedPerson/HealthCertifiedPersonViewModel.swift:208-214 | Outside the certificates section the service receives nothing. Inside it, the service receives exactly one removal request, for the row's certificate |
| `PersonViewModel.HealthCertificateService.RemoveHealthCertificate` | src/xcode/ENA/ENA/Source/Scenes/HealthCertificates/HealthCertifiedPerson/HealthCertifiedPersonViewModel.swift:213 | The service records the certificate it was asked to remove after the earlier requests |
| `PersonViewModel.QRCodeCellViewModel` | src/xcode/ENA/ENA/Source/Scenes/HealthCertificates/HealthCertifiedPerson/HealthCertifiedPersonViewModel.swift:108-118 | The QR code row needs a non-empty list and shows its last certificate, with the QR code image description as accessibility text |
| `PersonViewModel.FullyVaccinatedHintText` | src/xcode/ENA/ENA/Source/Scenes/HealthCertificates/HealthCertifiedPerson/HealthCertifiedPersonViewModel.swift:120-137 | The hint exists only in the fully-vaccinated state and fills the days-until-protection text with that state's day count |
| `PersonViewModel.HealthCertificateCellViewModelAt` | src/xcode/ENA/ENA/Source/Scenes/HealthCertificates/HealthCertifiedPerson/HealthCertifiedPersonViewModel.swift:189-194 | The cell of a row shows the certificate at that row, which must be a valid index, for the same person |
| `PersonViewModel.ReportedRowsAreAvailable` | src/xcode/ENA/ENA/Source/Scenes/HealthCertificates/HealthCertifiedPerson/HealthCertifiedPersonViewModel.swift:108-187 | While the person has a certificate, the cell of every row the table reports can be built: the QR code cell has its certificate, the hint cell its state and a certificate row its index |
| `PersonViewModel.EmptyListStillReportsQRCodeRow` | src/xcode/ENA/ENA/Source/Scenes/HealthCertificates/HealthCertifiedPerson/HealthCertifiedPersonViewModel.swift:174-179 | With no certificates the QR code section still reports one row, and that row's cell cannot be built |
| `PersonViewModel.AtMostOneHighlightedRow` | src/xcode/ENA/ENA/Source/Scenes/HealthCertificates/HealthCertifiedPerson/Cells/HealthCertificate/HealthCertificateCellViewModel.swift:105-107 | If the certificates are pairwise different, at most one row is highlighted. Exactly one is when the most relevant certificate is in the list |
| `PersonViewModel.TwoDoseExample` | src/xcode/ENA/ENA/Source/Scenes/HealthCertificates/HealthCertifiedPerson/HealthCertifiedPersonViewModel.swift:174-194 | Doses 1/2 and 2/2 for a fully vaccinated person whose most relevant certificate is the second: one row per fixed section and two certificate rows. The second row has the vaccination headline, the 2-of-2 count, the fully-vaccinated icon and the light-blue gradient. The first row is grey with the partially-vaccinated icon. The QR code shows the second certificate |

## Left out

- Layout, fonts, colours, paragraph styles and top spaces are not modelled, including the header and person cells (`HealthCertifiedPersonViewModel.swift:71-102,147-172`). The person cell's name and date of birth are left out with them.
- The three cell classes (`HealthCertificateDetailsQRCodeCell.swift`, `DynamicTableViewHeadlineWithImageCell.swift`, `AddButtonAsTableViewCell.swift`) only lay out views and bind properties, so they hold no rules to model.
- The person view model's initializer is not modelled. Its subscriptions are reactive plumbing: they update the published `gradientType`, set `triggerReload`, dismiss the screen whenever they are notified while the list is empty, and fetch the value sets. `VaccinationState.gradientType` is not part of this model.
- QR image generation and the screen-width arithmetic that sizes it are foreign calls on floating-point geometry.
- The date parsers and formatters (`ISO8601DateFormatter.justLocalDateFormatter`, `DCCDateStringFormatter`, `DateFormatter.localizedString`) are locale-dependent library code. They are parameters or symbolic values here. `Date` is an integer count of seconds, not a floating-point interval.
- `Country(countryCode:)` and the value sets' `displayText(forKey:)` are not part of this model; they are partial maps.
- The localized texts of `AppStrings` are not part of this model; they are symbolic keys.
- The definition of `healthCertificate.type` is not part of this model; `TypeOf` takes it to be the kind of the entry.
- How the store picks `mostRelevantHealthCertificate` is not part of this model; it is an input.
- The deletion itself happens in the certificate service, which is not part of this model. `HealthCertificateService` only records which certificate it was asked to remove.
- QRCodeCell.DidTapValidationButton: returns the certificate handed to the callback only. The loading-state handler, which the cell wraps in a closure that forwards each value unchanged, is not modelled.
