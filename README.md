# DIVEIndia guest packets: a verified model of the PDF overlay and packet builder

The backend of this dive-form application turns a guest's form submission into
one or two PDF "packets" that are mailed to the dive center. Each packet is a
cover sheet followed by filled copies of flat PDF templates: the medical form,
the waiver, the boat waiver, the RDC form and, for a minor, the youth waiver.
Each template is filled by drawing texts, checkbox marks and signature images
at the coordinates a constant table gives for it.

This project models that core in Dafny and proves properties of the model:

- `strings.dfy`: JavaScript's `trim`, `split(/\s+/)` and `join`, and decimal digits.
- `dates.dfy`:
  - `toDDMMYYYY` and `calcIsMinor`;
  - the two `date-fns` formats as they are used (`dd/MM/yyyy`, `yyyyMMdd`).
- `submission.dfy`: the fields of the submission that the backend reads.
- `names.dfy`:
  - `buildNameParts`, as a method that pops and shifts its token list;
  - the pure function it is proved equal to.
- `fieldmap.dfy`: `formFiles`, `bundleForCenters` and `centerSuffixes`.
- `coordmap.dfy`:
  - the `coordsByFile` and `checkboxByFile` tables, as constants;
  - lemmas about what they hold.
- `overlay.dfy`:
  - the value bag of `overlayWithData`;
  - the shrink loop of `drawFittedText`;
  - the text, checkbox and signature passes.

  The loops are methods proved equal to pure specification functions. Their output is the sequence of draw commands.
- `overlay_facts.dfy`, `plan_facts.dfy`:
  - soundness and completeness of the draws;
  - which keys can draw;
  - where signatures go.
- `filenames.dfy`: the output filename and its sanitiser.
- `packets.dfy`:
  - `ensureFormFileExists`;
  - the cover sheet's text and signatures;
  - `appendOriginalFilled`, as a class whose document grows;
  - `buildPacketBuffers`, as its two loops.

  The methods are proved against the predicates `IsPacket` and `IsPlan`.
- `packet_facts.dfy`:
  - uniqueness of the plan;
  - the failure condition;
  - labels, the documents of each packet, the cover, and filenames.

The outside world is a set of parameters:

- **The clock.** `now`, a calendar date.
- **The JavaScript date parser.** An optional date inside the submission.
- **Helvetica's text widths.** A function parameter.
- **The forms directory.** A map from the names of the files it holds to their page counts.
- **Overlay failures.** The set `failing` of templates on which `overlayWithData` throws.
- **Signatures.** A signature is only a flag saying whether pdf-lib can embed its bytes.

## Model

| member | source | states |
|---|---|---|
| Strings.TrimStartDrops | backend/pdfHandler.js:60-62 | dropping leading white space leaves a suffix of the input, and everything before it is white space |
| Strings.TrimEndDrops | backend/pdfHandler.js:60-62 | dropping trailing white space leaves a prefix of the input, and everything after it is white space |
| Strings.Trim | backend/pdfHandler.js:60-62 | a trimmed string neither starts nor ends with white space |
| Strings.TrimIsMiddle | backend/pdfHandler.js:60-62 | `trim()` is a middle slice of the input with only white space before and after it, and the slice neither starts nor ends with white space |
| Strings.TrimIdempotent | backend/pdfHandler.js:60-62 | trimming a trimmed string changes nothing |
| Strings.TakeWord | backend/pdfHandler.js:74 | the first token is a prefix of the input without white space |
| Strings.WordsAreWords | backend/pdfHandler.js:74 | every token of `split(/\s+/)` on a trimmed string is non-empty and holds no white space |
| Strings.TakeWordStops | backend/pdfHandler.js:74 | a token ends at white space or at the end of the input |
| Strings.WordsOfJoin | backend/pdfHandler.js:74 | splitting the space-join of non-empty tokens without white space gives the tokens back |
| Strings.WordsCons | backend/pdfHandler.js:74 | a token followed by white space splits off as the first token |
| Strings.SingleWordIsWhole | backend/pdfHandler.js:75 | a trimmed string with one token is that token |
| Strings.TrimmedHasWords | backend/pdfHandler.js:74 | a non-empty trimmed string has at least one token |
| Strings.NonEmpty | backend/pdfHandler.js:65 | `filter(Boolean)` keeps only non-empty strings and never lengthens the list |
| Strings.FirstChar | backend/pdfHandler.js:67 | `s[0] \|\| ''` (also at lines 75 and 81) is empty for an empty string and otherwise the first character |
| Strings.NatToString | backend/pdfHandler.js:27 | `String(n)` is a non-empty string of digits |
| Strings.IntToString | backend/pdfHandler.js:29 | `String(year)` of any integer is non-empty |
| Strings.NatToStringShape | backend/pdfHandler.js:27 | one digit exactly below 10, two from 10 to 99, and no leading zero |
| Strings.ParseNatToString | backend/pdfHandler.js:27 | reading a written number back gives the number |
| Strings.PadStart | backend/pdfHandler.js:27-28 | `padStart` reaches the width unless the string is already longer |
| Strings.PadStartDigits | backend/pdfHandler.js:27-28 | padding digits with zeros leaves only digits |
| Dates.Pad2Value | backend/pdfHandler.js:27-28 | a day or month becomes two digits that read back as the number |
| Dates.ToDDMMYYYY | backend/pdfHandler.js:24-31 | the result is empty exactly for an invalid date |
| Dates.FieldPositions | backend/pdfHandler.js:30 | in `dd/mm/yyyy` the slashes are at positions 2 and 5 and the fields lie between them |
| Dates.YearRoundTrip | backend/pdfHandler.js:29-30 | the year is written in full and reads back as itself |
| Dates.FormatParseRoundTrip | backend/pdfHandler.js:24-31 | reading back the `DD/MM/YYYY` text of a date gives the same day, month and year |
| Dates.FormatIdempotent | backend/pdfHandler.js:24-31 | formatting a read-back date again gives the same text |
| Dates.AgeAtLeast | backend/pdfHandler.js:37-40 | the age is at least k exactly when the k-th birthday has been reached |
| Dates.IsMinor | backend/pdfHandler.js:33-43 | a minor exactly when the date of birth is valid and today is before the 18th birthday; an invalid date of birth is not a minor |
| Dates.PrevDayIsPredecessor | backend/pdfHandler.js:39 | the previous day is earlier, and every earlier date is on or before it |
| Dates.NotMinorFromEighteenthBirthday | backend/pdfHandler.js:39-41 | from the 18th birthday on the guest is not a minor |
| Dates.MinorOnDayBeforeEighteenthBirthday | backend/pdfHandler.js:39-41 | on the day before the 18th birthday the guest is a minor |
| Dates.AllDigitsConcat | backend/pdfHandler.js:308 | joining digit strings gives a digit string |
| Dates.FourDigits | backend/pdfHandler.js:213 | a year from 1000 has at least four digits |
| Dates.DdMMyyyyAgrees | backend/pdfHandler.js:213 | from year 1000 on, the cover date `dd/MM/yyyy` is the `toDDMMYYYY` text and reads back as today |
| Dates.YyyyMMdd | backend/pdfHandler.js:308 | the filename date is at least eight digits; `YyyyMMddFields` says which |
| Dates.YyyyMMddFields | backend/pdfHandler.js:308 | `yyyyMMdd` is the year padded to four digits, then the month and the day as two digits each, which read back as the date's month and day |
| Dates.DateDigits | backend/pdfHandler.js:308 | a four-digit year and two two-digit fields give eight or more digits |
| Submissions.CenterList | backend/pdfHandler.js:276 | an array of centers is used as it is; a single value gives itself as the one center, or no center when it is empty |
| Names.BuildNameParts | backend/pdfHandler.js:59-83 | the method that pops and shifts its token list returns `SplitName(data)`, whose meaning the lemmas below state |
| Names.InitialsOfPresentParts | backend/pdfHandler.js:64-67 | the initials are the first characters of the present parts in order; the middle initial is the uppercased first character plus `.`, empty exactly without a middle name |
| Names.SplitFieldsPath | backend/pdfHandler.js:59-68 | with a first or last name: the trimmed parts, and a non-empty full name of the present parts joined by single spaces |
| Names.NonEmptyOfThree | backend/pdfHandler.js:65 | filtering three parts keeps the non-empty ones in order |
| Names.JoinNonEmptyParts | backend/pdfHandler.js:65 | joining one or more non-empty parts gives a non-empty string |
| Names.EmptyName | backend/pdfHandler.js:72-73 | an empty legacy name gives every field empty |
| Names.LegacySingleToken | backend/pdfHandler.js:74-75 | one token is the first name and the full name, with the other parts and the middle initial empty and the initials the token's first character |
| Names.LegacyManyTokens | backend/pdfHandler.js:75-80 | two or more tokens: first token, last token, the tokens between joined by spaces, and the full name of all tokens |
| Names.ComposeTokens | backend/pdfHandler.js:75-80 | the full name rebuilt from the popped and shifted parts is all tokens joined by spaces |
| Names.JoinTwo | backend/pdfHandler.js:78-79 | with two tokens the middle name is empty and the full name is the two tokens |
| Names.JoinThreeOrMore | backend/pdfHandler.js:78-79 | with three or more tokens the middle name is non-empty and first, middle and last join to all tokens |
| Names.JoinOfThree | backend/pdfHandler.js:79 | joining three strings puts the separator between them |
| Names.JoinTailSnoc | backend/pdfHandler.js:76-78 | the tokens after the first join to the middle tokens, a space and the last one |
| Names.JoinRegroup | backend/pdfHandler.js:79 | first, joined middle and last re-join to all tokens |
| Names.JoinSnoc | backend/pdfHandler.js:78 | a join is the join of all but the last, the separator and the last |
| Names.LegacyFullNameRoundTrip | backend/pdfHandler.js:71-83 | the legacy full name is the tokens joined by single spaces and splits back into the same tokens |
| FieldMap.FormFilesDistinct | backend/utils/fieldMap.js:3-9 | the five roles have five different file names |
| FieldMap.BundleForCenters | backend/utils/fieldMap.js:11-20 | 4 documents for one center or none and 7 for more, plus 1 for a minor, starting with medical, waiver, boat |
| FieldMap.CenterSuffixes | backend/utils/fieldMap.js:22-25 | one label below two centers and two otherwise, none of them empty |
| FieldMap.BundleOneCenter | backend/utils/fieldMap.js:11-20 | one center: medical, waiver, boat, RDC, and youth exactly for a minor |
| FieldMap.BundleSeveralCenters | backend/utils/fieldMap.js:13-18 | several centers: the base three twice, RDC, and youth exactly for a minor |
| FieldMap.BundleCounts | backend/utils/fieldMap.js:17-18 | RDC exactly once; youth once for a minor and otherwise never, and only last |
| FieldMap.SuffixesIgnoreNames | backend/utils/fieldMap.js:24 | with two or more centers the labels are Havelock and Neil, whatever the centers are |
| FieldMap.SuffixOfOneCenter | backend/utils/fieldMap.js:23 | with fewer than two centers the label is the center's name, or Havelock when there is none |
| CoordMap.RoleAmongNames | backend/pdfHandler.js:123 | a role found has that file name; none found means no role of the list has it |
| CoordMap.RoleOfFileNames | backend/pdfHandler.js:123 | `coordsByFile[filename]` is found exactly for the five template names |
| CoordMap.RoleOfFormFile | backend/pdfHandler.js:123 | each template's name finds its own table |
| CoordMap.FieldsOnListed | backend/pdfHandler.js:143 | `map[idx] \|\| {}`: an unlisted page has no entries, a listed one those of its entry |
| CoordMap.FieldsOnAt | backend/pdfHandler.js:143 | the first entry for a page gives its fields |
| CoordMap.BoxesOnListed | backend/pdfHandler.js:158 | every checkbox of a page is in an entry for that page |
| CoordMap.FindField | backend/pdfHandler.js:170-174 | a key's descriptor is found exactly when the page lists the key |
| CoordMap.FindFieldAt | backend/pdfHandler.js:170-174 | the first descriptor with a key is the one found |
| CoordMap.SignatureKeyNames | backend/pdfHandler.js:146 | the keys starting with `sig` are exactly sigGuest and sigGuardian |
| CoordMap.RegisteredCases | backend/utils/coordMap.js:8-61 | every registered descriptor is on RDC page 0, waiver page 0, boat pages 0 or 2, medical page 0 or youth page 0 |
| CoordMap.AllDescriptorsHaveCoordinates | backend/utils/coordMap.js:9-60 | every descriptor has x and y, so the skip for a missing coordinate never fires |
| CoordMap.SignatureKeysOnlyOnRdc | backend/utils/coordMap.js:19-20 | signature boxes are only on RDC page 0: guest at (264,87) and guardian at (264,54), each 220 by 19 |
| CoordMap.RdcSignatureBoxes | backend/utils/coordMap.js:19-20 | RDC page 0's signature boxes are found at those places |
| CoordMap.RdcPageZero | backend/utils/coordMap.js:10-21 | looking up RDC page 0 gives its entry |
| CoordMap.RdcGuestBox | backend/utils/coordMap.js:19 | the guest box on RDC page 0 |
| CoordMap.RdcGuardianBox | backend/utils/coordMap.js:20 | the guardian box on RDC page 0 |
| CoordMap.MaxWidthOnlyOnRdcNames | backend/utils/coordMap.js:11-16 | a maximum width is set only for RDC page 0's firstName and lastName (200), fullName (320) and parentName (260), none with a minimum size |
| CoordMap.TextFieldSizes | backend/utils/coordMap.js:9-60 | every text descriptor has size 12 and no minimum size |
| CoordMap.FieldsOnRegistered | backend/utils/coordMap.js:8-61 | every entry looked up for a page is registered for that template and page |
| CoordMap.RegisteredKeys | backend/utils/coordMap.js:23-52 | the shipped tables do hold name, youthName, youthDob, participantName, birthdate and facilityName |
| CoordMap.BoatPageEntries | backend/utils/coordMap.js:36-42 | boat page 1 has no entries, and page 2 exactly youthName, youthDob, parentName, parentDate |
| CoordMap.BoatPageOne | backend/utils/coordMap.js:36 | boat page 1 has no entries |
| CoordMap.BoatPageTwo | backend/utils/coordMap.js:37-42 | looking up boat page 2 gives its entry |
| CoordMap.BoatPageTwoKeys | backend/utils/coordMap.js:37-42 | boat page 2 lists youthName, youthDob, parentName, parentDate in that order |
| CoordMap.NoCheckboxes | backend/utils/coordMap.js:65-71 | no page of any file has a checkbox |
| CoordMap.CoordTablesWellFormed | backend/utils/coordMap.js:8-61 | no page of any table lists a key twice, nor an index twice |
| CoordMap.RdcWellFormed | backend/utils/coordMap.js:9-22 | the RDC table lists each key and page once |
| CoordMap.WaiverWellFormed | backend/utils/coordMap.js:23-30 | the waiver table lists each key and page once |
| CoordMap.BoatWellFormed | backend/utils/coordMap.js:31-43 | the boat table lists each key and page once, on each of its three pages |
| CoordMap.MedicalWellFormed | backend/utils/coordMap.js:44-52 | the medical table lists each key and page once |
| CoordMap.YouthWellFormed | backend/utils/coordMap.js:53-60 | the youth table lists each key and page once |
| Overlay.FittedSize | backend/pdfHandler.js:46-56 | the size never grows; it is the first size from the base down, in steps of a half-point, that fits, every larger one overflowing; if none fits it is one step below the floor; a base below the floor is kept |
| Overlay.DrawFittedText | backend/pdfHandler.js:46-56 | the while loop draws nothing for an empty text, otherwise the whole text once at the fitted size |
| Overlay.FieldDraw | backend/pdfHandler.js:144-156 | at most one draw, made exactly when the entry is drawable; it is the bag's value at the entry's x and y, at `size || 11`, or, when `maxWidth` is set, at `FittedSize` from there with floor `minSize || 8` |
| Overlay.OverlayWithData | backend/pdfHandler.js:98-195 | the forEach loops and the signature loop make exactly the draws of the overlay plan |
| Overlay.DrawPages | backend/pdfHandler.js:142-164 | the page loop returns `TextPass`: each page's text draws, then its checkbox marks, page by page |
| Overlay.DrawPage | backend/pdfHandler.js:143-163 | one page's texts, then its checkbox marks |
| Overlay.DrawTexts | backend/pdfHandler.js:144-156 | the text loop of a page makes that page's text draws |
| Overlay.DrawMarks | backend/pdfHandler.js:158-163 | the checkbox loop makes that page's marks |
| Overlay.DrawSignatures | backend/pdfHandler.js:167-192 | the loop over page indices makes the signature pass |
| Overlay.DrawPageSignatures | backend/pdfHandler.js:170-190 | one page's guest and guardian signatures |
| Overlay.DrawEntry | backend/pdfHandler.js:144-156 | one entry's draw |
| OverlayFacts.PageTextDrawsSound | backend/pdfHandler.js:144-156 | every text drawn on a page comes from a drawable entry of that page |
| OverlayFacts.PageTextDrawsComplete | backend/pdfHandler.js:144-156 | every drawable entry of a page is drawn |
| OverlayFacts.PageMarksSound | backend/pdfHandler.js:158-163 | every mark comes from a checkbox whose flag is `true` |
| OverlayFacts.PageMarksComplete | backend/pdfHandler.js:158-163 | every checkbox whose flag is `true` gets an X |
| OverlayFacts.PageDrawsSound | backend/pdfHandler.js:142-164 | every draw of a page is on that page and comes from its table |
| OverlayFacts.PagesOf | backend/pdfHandler.js:142 | a draw of the page loop comes from one page below the page count |
| OverlayFacts.InPages | backend/pdfHandler.js:142 | every page's draws are in the page loop's output |
| OverlayFacts.TextPassPages | backend/pdfHandler.js:142-164 | the text pass is the pages' draws in page order |
| OverlayFacts.TextPassPage | backend/pdfHandler.js:142-164 | each draw of the text pass belongs to one page's draws |
| OverlayFacts.TextPassSound | backend/pdfHandler.js:142-164 | every draw of the text pass is on an existing page and comes from its table |
| OverlayFacts.InTextPass | backend/pdfHandler.js:142-164 | every page's draws are in the text pass |
| OverlayFacts.TextPassComplete | backend/pdfHandler.js:142-156 | every drawable entry of an existing page is drawn |
| OverlayFacts.MarksComplete | backend/pdfHandler.js:158-163 | every checkbox with a true flag on an existing page is marked |
| OverlayFacts.SigPassImages | backend/pdfHandler.js:167-192 | the signature pass draws only images, on existing pages, and the guardian's only for a minor |
| OverlayFacts.NoBoxesNoSignatures | backend/pdfHandler.js:170-190 | a page without signature boxes gets no signature |
| OverlayFacts.SigPassWithoutBoxes | backend/pdfHandler.js:167-192 | a table without signature boxes gets no signature |
| OverlayFacts.SigPassOfOnePage | backend/pdfHandler.js:169-172 | a table of one page gets that page's signatures if the page exists, else none |
| OverlayFacts.SignatureInBox | backend/pdfHandler.js:128-137 | a signature is drawn at its box exactly when its bytes embed |
| OverlayFacts.SigPassOfSignaturePage | backend/pdfHandler.js:167-192 | on a page 0 with both boxes, the expected guest and guardian images |
| OverlayFacts.SigPassOfRdc | backend/pdfHandler.js:167-192 | the RDC form gets the expected signatures |
| OverlayFacts.SigPassOfRole | backend/pdfHandler.js:167-192 | every template gets the expected signatures: only the RDC form has any |
| OverlayFacts.OverlayDrawSound | backend/pdfHandler.js:142-192 | every draw is on an existing page; a text comes from a drawable entry, a mark from a checkbox, an image from the signature pass |
| OverlayFacts.SameKeySameEntry | backend/utils/coordMap.js:8-61 | a page that lists each key once has one entry per key |
| OverlayFacts.FieldsOnDistinct | backend/utils/coordMap.js:8-61 | a looked-up page of a well-formed table lists each key once |
| OverlayFacts.TextDrawnIff | backend/pdfHandler.js:142-156 | an entry on an existing page is drawn exactly when it is drawable, and every text drawn for its key is drawn from it, at the size the entry and the shrink loop give |
| OverlayFacts.BagKeys | backend/pdfHandler.js:104-121 | only the bag's own keys can have a non-empty value |
| OverlayFacts.DrawnTexts | backend/pdfHandler.js:147-148 | every drawn text is non-empty and has one of the bag's keys |
| PlanFacts.EmptyTablesDrawNothing | backend/pdfHandler.js:123-125 | with no table there are no text or mark draws |
| PlanFacts.UnknownFilePlan | backend/pdfHandler.js:123-125 | a file that is not a template gets no draw |
| PlanFacts.PlanPagesInRange | backend/pdfHandler.js:142-192 | every draw is on a page the document has |
| PlanFacts.PlanHasNoMarks | backend/utils/coordMap.js:65-71 | the shipped checkbox table never draws an X |
| PlanFacts.ShippedTextOfEntry | backend/pdfHandler.js:142-156 | a text drawn from a shipped entry is a non-empty value of a bag key at 7.5 to 12 points, below 12 only for the names on RDC page 0 |
| PlanFacts.PlanTexts | backend/pdfHandler.js:142-156 | every text drawn on a template is a non-empty value of a bag key at 7.5 to 12 points; only the RDC form's first, last, full and parent names on page 0 can shrink below 12 |
| PlanFacts.PlanTextDrawnIff | backend/pdfHandler.js:142-156 | a registered entry on an existing page is drawn, with the bag's value at its place, exactly when its key does not start with `sig` and the value is non-empty |
| PlanFacts.ExpectedSignaturesWithoutBytes | backend/pdfHandler.js:168 | without signature bytes no signature is expected |
| PlanFacts.PlanSplits | backend/pdfHandler.js:142-192 | the plan is the text pass followed by the signature pass |
| PlanFacts.PlanSignaturesShape | backend/pdfHandler.js:167-192 | the guest image is drawn exactly on the RDC form when the document has a page and the guest's signature embeds; the guardian's the same, and also only for a minor; no other image is drawn |
| PlanFacts.GuestSignatureIff | backend/pdfHandler.js:173-179 | a guest signature is drawn exactly on the RDC form with a page 0 and embeddable bytes, always at (264,87) |
| PlanFacts.GuardianSignatureIff | backend/pdfHandler.js:181-187 | the guardian's is drawn exactly there and also only for a minor, always at (264,54) |
| PlanFacts.SignaturesOfPlan | backend/pdfHandler.js:167-192 | the images of the plan are exactly its signature pass |
| PlanFacts.GuestDateValue | backend/pdfHandler.js:114 | `date` is empty exactly when the filling date is given but invalid, and is today when it is missing |
| PlanFacts.ParentDateValue | backend/pdfHandler.js:115 | `parentDate` falls back to the filling date and then today; it is empty exactly when the date it takes is invalid |
| FileNames.DropUnsafe | backend/pdfHandler.js:307 | removing characters never lengthens the name |
| FileNames.DropUnsafeKeeps | backend/pdfHandler.js:307 | the first replacement keeps exactly the input's characters in `[\w\- ]`, and a name made only of such characters is kept whole |
| FileNames.DropUnsafeChar | backend/pdfHandler.js:307 | one character stays exactly when it is in `[\w\- ]` and is otherwise removed |
| FileNames.DropUnsafeConcat | backend/pdfHandler.js:307 | the first replacement works character by character: it distributes over concatenation, so with `DropUnsafeChar` the result is determined |
| FileNames.UnderscoreSpacesSafe | backend/pdfHandler.js:307 | on the output of the first replacement, the second leaves only letters, digits, `_` and `-` |
| FileNames.TrimStartConcat | backend/pdfHandler.js:307 | the white space run at the start of a string ending in another character ends inside it |
| FileNames.TrimStartOfSpaces | backend/pdfHandler.js:307 | a whole run of white space is consumed, and nothing after it |
| FileNames.UnderscoreSpacesConcat | backend/pdfHandler.js:307 | `replace(/\s+/g, '_')` works run by run: a string ending in a character other than white space is replaced independently of what follows |
| FileNames.UnderscoreSpacesOfRun | backend/pdfHandler.js:307 | a leading run of white space becomes exactly one `_` |
| FileNames.UnderscoreSpacesRun | backend/pdfHandler.js:307 | each maximal run of white space, at the start, inside or at the end, becomes exactly one `_`, and the text on either side is replaced on its own |
| FileNames.TrimStartKeepsKept | backend/pdfHandler.js:307 | dropping leading white space keeps kept characters kept |
| FileNames.UnderscoreSpacesOfWord | backend/pdfHandler.js:307 | a string without white space is unchanged by the second replacement |
| FileNames.SanitizeSafe | backend/pdfHandler.js:307 | a sanitised name holds only letters, digits, `_` and `-` |
| FileNames.SanitizeFixpoint | backend/pdfHandler.js:307 | a name is unchanged by sanitising exactly when it holds only those characters |
| FileNames.SanitizeIdempotent | backend/pdfHandler.js:307 | sanitising twice is sanitising once |
| FileNames.SanitizeExample | backend/pdfHandler.js:307 | an accented letter is removed and a double space becomes one `_` |
| FileNames.NoSpaceConcat | backend/pdfHandler.js:308 | a concatenation has no white space exactly when neither part has |
| FileNames.DigitsHaveNoSpace | backend/pdfHandler.js:308 | digits are not white space |
| FileNames.SafeHasNoSpace | backend/pdfHandler.js:307 | a sanitised name has no white space |
| FileNames.FiveParts | backend/pdfHandler.js:308 | the filename has white space exactly when the label has |
| FileNames.FilenameSpaces | backend/pdfHandler.js:307-308 | the filename has no white space exactly when the label has none |
| FileNames.FilenameShape | backend/pdfHandler.js:307-308 | the filename starts with the sanitised name and `_`, ends in `.pdf`, and is at least 14 characters longer than the name and the label together |
| Packets.EnsureFormFileExists | backend/pdfHandler.js:243-250 | succeeds exactly for a file of the forms directory, and otherwise fails with the message naming it |
| Packets.PacketDoc.constructor | backend/pdfHandler.js:289-294 | a new packet document holds the cover sheet and nothing else |
| Packets.FirstMissingNone | backend/pdfHandler.js:280-281 | no required file is missing exactly when all are present |
| Packets.FirstMissingAt | backend/pdfHandler.js:280-281 | the file reported missing is the first one missing, every earlier one being present |
| Packets.AppendedSnoc | backend/pdfHandler.js:253-272 | appending one template's document extends the documents of the files appended so far |
| Packets.PacketDoc.AppendOriginalFilled | backend/pdfHandler.js:253-272 | a missing file is the missing-file error with nothing appended; otherwise one document is appended: the filled template, or the original when the overlay throws |
| Packets.PacketDoc.AppendForms | backend/pdfHandler.js:297-300 | the base-forms loop keeps what was there and appends one document per file, in order |
| Packets.AppendOne | backend/pdfHandler.js:301-304 | one more `appendOriginalFilled` keeps the cover and extends the appended documents by one |
| Packets.BuildPacketBuffers | backend/pdfHandler.js:274-315 | the result is the plan: the first missing required file is the error; otherwise one packet per label, each the cover and its templates under its filename |
| Packets.CheckRequired | backend/pdfHandler.js:280-281 | the check loop fails exactly when a required file is missing, with the first such file's message, and otherwise every required file is there |
| Packets.BuildPackets | backend/pdfHandler.js:287-312 | the packet loop builds one packet per label, packet j for label j |
| Packets.PacketsSnoc | backend/pdfHandler.js:311 | pushing the next packet keeps every earlier packet |
| Packets.BuildPacket | backend/pdfHandler.js:288-311 | the cover sheet, then the packet's templates, under the packet's filename |
| Packets.FillPacket | backend/pdfHandler.js:297-304 | after the cover come medical, waiver, boat, then the RDC form and, for a minor, the youth waiver on the first packet or the only center |
| Packets.RequiredFilesPresent | backend/pdfHandler.js:280-304 | every file appended is among those checked first |
| PacketFacts.AppendedUnique | backend/pdfHandler.js:253-272 | the documents appended for given files are determined |
| PacketFacts.PacketUnique | backend/pdfHandler.js:288-311 | one packet fits a position and a label |
| PacketFacts.PlanDeterministic | backend/pdfHandler.js:274-315 | the outcome is determined by the inputs |
| PacketFacts.PlanFailsIff | backend/pdfHandler.js:280-281 | fails exactly when a required file is missing; the message names the first missing one, the files before it being present |
| PacketFacts.RequiredForMinor | backend/pdfHandler.js:280 | the youth waiver is required exactly for a minor; the other four always |
| PacketFacts.LabelsAreSuffixes | backend/pdfHandler.js:285 | the labels are `centerSuffixes` (the fallback after it is never reached): one label below two centers, and otherwise Havelock and Neil however many centers there are |
| PacketFacts.ScalarCenterLabel | backend/pdfHandler.js:276-285 | a single `data.centers` value is the label of the only packet, or Havelock when it is empty |
| PacketFacts.ScalarCenterPacket | backend/pdfHandler.js:276-308 | with a single `data.centers` value the build makes one packet, whose cover and filename carry that label |
| PacketFacts.PacketFilesOfRoles | backend/pdfHandler.js:297-304 | the files of a packet are the `formFiles` of its roles, in order |
| PacketFacts.PacketRolesShape | backend/pdfHandler.js:297-304 | each packet starts with medical, waiver, boat; has RDC exactly on the first packet or with one center, right after them; and the youth waiver exactly then for a minor, last |
| PacketFacts.RdcOnlyInFirstPacket | backend/pdfHandler.js:301-304 | the RDC form is in the first packet and no other |
| PacketFacts.PlanRolesAreBundle | backend/utils/fieldMap.js:11-20 | the packets together hold the documents `bundleForCenters` lists, as often; in its order with one center |
| PacketFacts.PlanOneCenter | backend/utils/fieldMap.js:11-20 | with one center or none, the single packet's documents are `bundleForCenters` in order |
| PacketFacts.PlanSeveralCenters | backend/utils/fieldMap.js:11-20 | with several centers, the two packets hold `bundleForCenters`' documents, each as often |
| PacketFacts.SwapLast | backend/utils/fieldMap.js:13-17 | reordering documents keeps how often each occurs |
| PacketFacts.PartsOfPacket | backend/pdfHandler.js:253-272 | after the cover, document k is the k-th template with its page count; it is the original exactly when the overlay throws, otherwise the overlay plan's draws for this guest and signatures |
| PacketFacts.PacketSize | backend/pdfHandler.js:291-304 | a packet holds four to six documents: the cover first and nowhere else, then three to five templates |
| PacketFacts.CoverSignatures | backend/pdfHandler.js:219-238 | the cover shows the guest's signature exactly when given and embeddable, and the guardian's exactly for a minor with a given, embeddable signature |
| PacketFacts.CoverLines | backend/pdfHandler.js:207-215 | six lines, a seventh for the parent exactly when named; from year 1000 on, the date line is the `toDDMMYYYY` text of today and reads back as today |
| PacketFacts.PlanFilenamesDiffer | backend/pdfHandler.js:307-308 | the two packets have different filenames |
| PacketFacts.PacketFilenameOf | backend/pdfHandler.js:307-308 | a packet's filename is the sanitised name, its label and the date |
| PacketFacts.FilenameLabelStart | backend/pdfHandler.js:308 | the label starts right after the name and its `_` |
| PacketFacts.PlanFilenameSpaces | backend/pdfHandler.js:307-308 | a filename has white space exactly when its label has; with two or more centers none has |

## Left out

- **pdf-lib.** Loading, embedding, drawing, copying pages and saving are left out. A document is the list of its draw commands or of the documents appended to it.
- **Signature placement.** The scaling of signature images (backend/pdfHandler.js:128-138) and the cover's image sizes are floating-point arithmetic. Only *whether* an image is drawn, and at which point, is modelled.
- **Cover layout.** The cover's pixel positions and font sizes are left out. Its title, text lines in order and the two signature flags are kept.
- **The clock.** Every `new Date()` is the one parameter `now`. The source reads the clock separately at backend/pdfHandler.js:37 (through each `calcIsMinor` call, at 183, 257 and 275), 114, 115, 119, 213 and 308. A build running across midnight can therefore disagree with itself: on the guest's 18th birthday it can require and append the youth waiver (line 275) yet drop the guardian's signature later (line 257). The model cannot represent that.
- **Date parsing.** `new Date(data.dob)` and `new Date(data.guestFillingDate)` are outside the model. The submission carries their outcome as an optional calendar date.
- **`date-fns` `format`.** It is modelled only for the two patterns used.
- **Font metrics.** `widthOfTextAtSize` is the function parameter `width`.
- **`b64ToUint8` and base64.** These are left out. A signature is present or absent and embeddable or not.
- **Overlay failure.** Whether `overlayWithData` throws on a template is the input set `failing`. A throwing `drawText` or `widthOfTextAtSize` (backend/pdfHandler.js:51, 55) is one case: a value with a character Helvetica's WinAnsi encoding lacks, such as "Ł", throws, and the original template is appended instead. pdf-lib itself is not part of this model.
- **An unloadable template.** A template pdf-lib cannot load makes `overlayWithData` throw (backend/pdfHandler.js:99). The fallback then loads the same bytes again at line 269, outside any `try`, so the whole `buildPacketBuffers` call rejects. The model assumes every template in the forms directory loads, and has no outcome for this.
- **Cover failure.** `makeCoverSheet` draws its title and lines (backend/pdfHandler.js:205-217) outside any `try`. A name or other field that WinAnsi cannot encode rejects the whole build, while `CoverSheet` always succeeds.
- **`startupScan`.** It is a console listing at load time.
- **Logging.** The logging in `appendOriginalFilled` and `buildPacketBuffers` is left out.
- **`path.join`.** Normalisation of the file path is left out; the path is the directory, `/` and the file name.
- **Other modules.** backend/server.js, backend/emailSender.js, backend/debugGrid.js and backend/debugListFields.js are HTTP, mail and diagnostic plumbing off the generation path.
- `Strings.ToUpper`: only ASCII letters are uppercased; JavaScript's `toUpperCase` also maps other letters.
- `Strings.FirstChar`: a string is a sequence of code points. JavaScript indexes UTF-16 code units, so for a name starting outside the Basic Multilingual Plane `s[0]` (backend/pdfHandler.js:66) is a lone surrogate, where the model gives the whole character.
- `Overlay.FittedSize`: `size`, `minSize` and `maxWidth` in the table are whole points, and the loop steps by half-points. A fractional table value such as 10.5 is not modelled, and the shipped table has none.
- `Packets.PacketDoc.AppendOriginalFilled`: a missing file is reported as an error value, not thrown. Inside `buildPacketBuffers` every appended file has been checked first, so the error cannot occur there; the packet loop discards it.

Notes where the code and its comments or the natural reading differ; the model follows the code:

- **Shrink loop.** When no size fits, `drawFittedText` stops one half-point below `minSize`, not at it.
- **Center labels.** `centerSuffixes` returns Havelock and Neil for three or more centers too, so there are never more than two packets.
- **Fallback labels.** The fallback `centers[0] || 'Havelock'` after `suffixes[0]` is never reached.
- **Label in the filename.** The label is not sanitised, so a single center's name with white space puts white space in the filename.
- **Keys that never draw.** The keys `name`, `youthName`, `youthDob`, `participantName`, `birthdate` and `facilityName` are in the coordinate table but not in the value bag, so they are never drawn.
- **`bundleForCenters` is never called.** The packets hold the same documents, each as often, but ordered packet by packet.
- **Cover date.** The cover's `dd/MM/yyyy` pads the year to four digits; `toDDMMYYYY` does not. They agree from year 1000 on.
