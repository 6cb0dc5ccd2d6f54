/** backend/utils/coordMap.js: where each value goes on each page of each
    template, and where checkbox marks go. Coordinates are PDF points from
    the bottom-left corner. A file's pages are kept in ascending page order,
    which is the order `Object.keys` lists integer keys in. */
module CoordMap {
  import opened Wrappers
  import opened FieldMap

  /** One descriptor `{ x, y, size, maxWidth, minSize, width, height }`; an
      absent property is `None`. */
  datatype Placement = Placement(
    x: Option<int>,
    y: Option<int>,
    size: Option<nat>,
    maxWidth: Option<nat>,
    minSize: Option<nat>,
    width: Option<nat>,
    height: Option<nat>)

  /** The keys the coordinate table uses, with their JavaScript names. */
  datatype Key =
    | FirstName | LastName | FullName | Date | ParentName | ParentDate
    | SigGuest | SigGuardian | Name | YouthName | YouthDob
    | ParticipantName | Birthdate | FacilityName

  function KeyName(k: Key): string {
    match k
    case FirstName => "firstName"
    case LastName => "lastName"
    case FullName => "fullName"
    case Date => "date"
    case ParentName => "parentName"
    case ParentDate => "parentDate"
    case SigGuest => "sigGuest"
    case SigGuardian => "sigGuardian"
    case Name => "name"
    case YouthName => "youthName"
    case YouthDob => "youthDob"
    case ParticipantName => "participantName"
    case Birthdate => "birthdate"
    case FacilityName => "facilityName"
  }

  /** One `key: descriptor` entry of a page, in the order the literal lists it. */
  datatype Field = Field(key: Key, cfg: Placement)

  /** The entries of one page index. */
  datatype PageFields = PageFields(index: nat, fields: seq<Field>)

  /** A checkbox point `flagKey: { x, y }`. */
  datatype Checkbox = Checkbox(flag: string, x: int, y: int)

  datatype PageBoxes = PageBoxes(index: nat, boxes: seq<Checkbox>)

  /** `{ x, y, size }` */
  function Fixed(x: int, y: int, size: nat): Placement {
    Placement(Some(x), Some(y), Some(size), None, None, None, None)
  }

  /** `{ x, y, size, maxWidth }` */
  function Fitted(x: int, y: int, size: nat, maxWidth: nat): Placement {
    Placement(Some(x), Some(y), Some(size), Some(maxWidth), None, None, None)
  }

  /** `{ x, y, width, height }` */
  function Box(x: int, y: int, width: nat, height: nat): Placement {
    Placement(Some(x), Some(y), None, None, None, Some(width), Some(height))
  }

  const RdcPages: seq<PageFields> := [
    PageFields(0, [
      Field(FirstName, Fitted(113, 755, 12, 200)),
      Field(LastName, Fitted(340, 755, 12, 200)),
      Field(FullName, Fitted(43, 87, 12, 320)),
      Field(Date, Fixed(492, 87, 12)),
      Field(ParentName, Fitted(43, 54, 12, 260)),
      Field(ParentDate, Fixed(492, 54, 12)),
      Field(SigGuest, Box(264, 87, 220, 19)),
      Field(SigGuardian, Box(264, 54, 220, 19))])]

  const WaiverPages: seq<PageFields> := [
    PageFields(0, [
      Field(Name, Fixed(200, 730, 12)),
      Field(Date, Fixed(460, 90, 12)),
      Field(ParentName, Fixed(200, 70, 12)),
      Field(ParentDate, Fixed(460, 70, 12))])]

  const BoatPages: seq<PageFields> := [
    PageFields(0, [
      Field(Name, Fixed(200, 720, 12)),
      Field(Date, Fixed(480, 720, 12))]),
    PageFields(1, []),
    PageFields(2, [
      Field(YouthName, Fixed(180, 160, 12)),
      Field(YouthDob, Fixed(410, 160, 12)),
      Field(ParentName, Fixed(210, 120, 12)),
      Field(ParentDate, Fixed(480, 120, 12))])]

  const MedicalPages: seq<PageFields> := [
    PageFields(0, [
      Field(ParticipantName, Fixed(170, 155, 12)),
      Field(Birthdate, Fixed(400, 155, 12)),
      Field(FacilityName, Fixed(170, 135, 12)),
      Field(Date, Fixed(400, 135, 12))])]

  const YouthPages: seq<PageFields> := [
    PageFields(0, [
      Field(Name, Fixed(200, 160, 12)),
      Field(Date, Fixed(480, 160, 12)),
      Field(ParentName, Fixed(250, 120, 12)),
      Field(ParentDate, Fixed(480, 120, 12))])]

  /** `coordsByFile`, by the role whose template file it describes. */
  function Pages(role: Role): seq<PageFields> {
    match role
    case Rdc => RdcPages
    case Waiver => WaiverPages
    case Boat => BoatPages
    case Medical => MedicalPages
    case Youth => YouthPages
  }

  /** The role whose template is called `file`, if any. */
  function RoleOfFile(file: string): Option<Role> {
    RoleAmong(file, [Rdc, Waiver, Boat, Medical, Youth])
  }

  /** The first of `roles` whose template is called `file`. */
  function RoleAmong(file: string, roles: seq<Role>): Option<Role> {
    if roles == [] then None
    else if file == FormFile(roles[0]) then Some(roles[0])
    else RoleAmong(file, roles[1..])
  }

  lemma {:induction false} RoleAmongNames(file: string, roles: seq<Role>)
    ensures RoleAmong(file, roles).Some? ==> FormFile(RoleAmong(file, roles).value) == file
    ensures RoleAmong(file, roles).None? ==> forall j :: 0 <= j < |roles| ==> FormFile(roles[j]) != file
  {
    if roles != [] {
      RoleAmongNames(file, roles[1..]);
      if RoleAmong(file, roles).None? {
        forall j | 0 <= j < |roles| ensures FormFile(roles[j]) != file {
          if j > 0 {
            assert roles[j] == roles[1..][j - 1];
          }
        }
      }
    }
  }

  /** A file has a role exactly when it is that role's template. */
  lemma RoleOfFileNames(file: string)
    ensures RoleOfFile(file).Some? ==> FormFile(RoleOfFile(file).value) == file
    ensures RoleOfFile(file).None? ==> forall role :: FormFile(role) != file
  {
    var all := [Rdc, Waiver, Boat, Medical, Youth];
    RoleAmongNames(file, all);
    if RoleOfFile(file).None? {
      forall role: Role ensures FormFile(role) != file {
        var j := match role case Rdc => 0 case Waiver => 1 case Boat => 2 case Medical => 3 case Youth => 4;
        assert all[j] == role;
      }
    }
  }

  lemma RoleOfFormFile(role: Role)
    ensures RoleOfFile(FormFile(role)) == Some(role)
  {
    RoleOfFileNames(FormFile(role));
    FormFilesDistinct(RoleOfFile(FormFile(role)).value, role);
  }

  /** `coordsByFile[filename] || {}` */
  function FilePages(file: string): seq<PageFields> {
    match RoleOfFile(file)
    case Some(role) => Pages(role)
    case None => []
  }

  /** `checkboxByFile`: only the medical form's page 1, which is empty. */
  function Boxes(role: Role): seq<PageBoxes> {
    if role == Medical then [PageBoxes(1, [])] else []
  }

  /** `checkboxByFile[filename] || {}` */
  function FileBoxes(file: string): seq<PageBoxes> {
    match RoleOfFile(file)
    case Some(role) => Boxes(role)
    case None => []
  }

  /** `map[idx] || {}`: the entries of page `idx`, none for an unlisted page. */
  function FieldsOn(pages: seq<PageFields>, idx: nat): seq<Field> {
    if pages == [] then []
    else if pages[0].index == idx then pages[0].fields
    else FieldsOn(pages[1..], idx)
  }

  /** `cbox[idx] || {}` */
  function BoxesOn(pages: seq<PageBoxes>, idx: nat): seq<Checkbox> {
    if pages == [] then []
    else if pages[0].index == idx then pages[0].boxes
    else BoxesOn(pages[1..], idx)
  }

  /** An unlisted page has no entries; the entries of a listed page are
      those listed under its index. */
  lemma {:induction false} FieldsOnListed(pages: seq<PageFields>, idx: nat)
    ensures (forall j :: 0 <= j < |pages| ==> pages[j].index != idx) ==> FieldsOn(pages, idx) == []
    ensures FieldsOn(pages, idx) != [] ==>
      exists j :: 0 <= j < |pages| && pages[j].index == idx && FieldsOn(pages, idx) == pages[j].fields
  {
    if pages != [] && pages[0].index != idx {
      FieldsOnListed(pages[1..], idx);
      if FieldsOn(pages, idx) != [] {
        var j :| 0 <= j < |pages| - 1 && pages[1..][j].index == idx && FieldsOn(pages, idx) == pages[1..][j].fields;
        assert pages[j + 1] == pages[1..][j];
      }
    }
  }

  /** The entries of page `idx` are those of its first listing. */
  lemma {:induction false} FieldsOnAt(pages: seq<PageFields>, j: nat, idx: nat)
    requires j < |pages| && pages[j].index == idx
    requires forall k :: 0 <= k < j ==> pages[k].index != idx
    ensures FieldsOn(pages, idx) == pages[j].fields
  {
    if j > 0 {
      FieldsOnAt(pages[1..], j - 1, idx);
    }
  }

  /** Every checkbox found for page `idx` is listed under that index. */
  lemma {:induction false} BoxesOnListed(pages: seq<PageBoxes>, idx: nat)
    ensures (forall j :: 0 <= j < |pages| ==> pages[j].index != idx) ==> BoxesOn(pages, idx) == []
    ensures forall b :: b in BoxesOn(pages, idx) ==>
      exists j :: 0 <= j < |pages| && pages[j].index == idx && b in pages[j].boxes
  {
    if pages != [] && pages[0].index != idx {
      BoxesOnListed(pages[1..], idx);
      forall b | b in BoxesOn(pages, idx)
        ensures exists j :: 0 <= j < |pages| && pages[j].index == idx && b in pages[j].boxes
      {
        var j :| 0 <= j < |pages| - 1 && pages[1..][j].index == idx && b in pages[1..][j].boxes;
        assert pages[j + 1] == pages[1..][j];
      }
    }
  }

  /** `cfg[key]`: the descriptor registered under `key`, if any. */
  function FindField(fields: seq<Field>, key: Key): (r: Option<Placement>)
    ensures r.Some? <==> exists f :: f in fields && f.key == key
    ensures r.Some? ==> Field(key, r.value) in fields
  {
    if fields == [] then None
    else if fields[0].key == key then Some(fields[0].cfg)
    else FindField(fields[1..], key)
  }

  predicate StartsWith(s: string, prefix: string) {
    |prefix| <= |s| && s[..|prefix|] == prefix
  }

  /** `key.startsWith('sig')` */
  predicate IsSignatureKey(k: Key) {
    StartsWith(KeyName(k), "sig")
  }

  /** A field registered on page `idx` of the template of `role`. */
  predicate Registered(role: Role, idx: nat, f: Field) {
    exists j :: 0 <= j < |Pages(role)| && Pages(role)[j].index == idx && f in Pages(role)[j].fields
  }

  /** A file's page indices are strictly increasing and each page's keys are
      distinct, as in a JavaScript object literal. */
  predicate WellFormedPages(pages: seq<PageFields>) {
    (forall j, k :: 0 <= j < k < |pages| ==> pages[j].index < pages[k].index)
    && (forall j :: 0 <= j < |pages| ==> DistinctKeys(pages[j].fields))
  }

  predicate DistinctKeys(fields: seq<Field>) {
    forall a, b :: 0 <= a < b < |fields| ==> fields[a].key != fields[b].key
  }

  /* ---- Properties of the shipped tables ---- */

  function Keys(fields: seq<Field>): seq<Key> {
    if fields == [] then [] else [fields[0].key] + Keys(fields[1..])
  }

  /** Only the two signature keys start with "sig". */
  lemma SignatureKeyNames(k: Key)
    ensures IsSignatureKey(k) <==> k == SigGuest || k == SigGuardian
  {
    var n := KeyName(k);
    if k != SigGuest && k != SigGuardian {
      assert n[0] != 's';
    }
  }

  /** Where a registered field can come from. */
  lemma RegisteredCases(role: Role, idx: nat, f: Field)
    requires Registered(role, idx, f)
    ensures (role == Rdc && idx == 0 && f in RdcPages[0].fields)
      || (role == Waiver && idx == 0 && f in WaiverPages[0].fields)
      || (role == Boat && idx == 0 && f in BoatPages[0].fields)
      || (role == Boat && idx == 2 && f in BoatPages[2].fields)
      || (role == Medical && idx == 0 && f in MedicalPages[0].fields)
      || (role == Youth && idx == 0 && f in YouthPages[0].fields)
  {
    var j :| 0 <= j < |Pages(role)| && Pages(role)[j].index == idx && f in Pages(role)[j].fields;
    if role == Boat {
      assert BoatPages[1].fields == [];
    }
  }

  /** Every descriptor has numeric `x` and `y`, so the null-coordinate skip of
      the overlay never fires on the shipped data. */
  lemma AllDescriptorsHaveCoordinates(role: Role, idx: nat, f: Field)
    requires Registered(role, idx, f)
    ensures f.cfg.x.Some? && f.cfg.y.Some?
  {
    RegisteredCases(role, idx, f);
  }

  /** Signature boxes exist only on page 0 of the RDC form: the guest's at
      (264, 87) and the guardian's at (264, 54), each 220 by 19 points. */
  lemma SignatureKeysOnlyOnRdc(role: Role, idx: nat, f: Field)
    requires Registered(role, idx, f) && IsSignatureKey(f.key)
    ensures role == Rdc && idx == 0
    ensures f == Field(SigGuest, Box(264, 87, 220, 19)) || f == Field(SigGuardian, Box(264, 54, 220, 19))
  {
    SignatureKeyNames(f.key);
    RegisteredCases(role, idx, f);
  }

  /** The RDC form's page 0 has both signature boxes. */
  lemma RdcSignatureBoxes()
    ensures FindField(FieldsOn(Pages(Rdc), 0), SigGuest) == Some(Box(264, 87, 220, 19))
    ensures FindField(FieldsOn(Pages(Rdc), 0), SigGuardian) == Some(Box(264, 54, 220, 19))
  {
    RdcPageZero();
    RdcGuestBox();
    RdcGuardianBox();
  }

  lemma RdcPageZero()
    ensures FieldsOn(Pages(Rdc), 0) == RdcPages[0].fields
  {
  }

  lemma RdcGuestBox()
    ensures FindField(RdcPages[0].fields, SigGuest) == Some(Box(264, 87, 220, 19))
  {
    FindFieldAt(RdcPages[0].fields, 6, SigGuest);
  }

  lemma RdcGuardianBox()
    ensures FindField(RdcPages[0].fields, SigGuardian) == Some(Box(264, 54, 220, 19))
  {
    FindFieldAt(RdcPages[0].fields, 7, SigGuardian);
  }

  /** The descriptor found for a key is that of its first entry. */
  lemma {:induction false} FindFieldAt(fields: seq<Field>, i: nat, key: Key)
    requires i < |fields| && fields[i].key == key
    requires forall j :: 0 <= j < i ==> fields[j].key != key
    ensures FindField(fields, key) == Some(fields[i].cfg)
  {
    if i > 0 {
      FindFieldAt(fields[1..], i - 1, key);
    }
  }

  /** Shrink-to-fit is set only for four fields of the RDC form's page 0, with
      widths 200, 200, 320 and 260 points and no `minSize`. */
  lemma MaxWidthOnlyOnRdcNames(role: Role, idx: nat, f: Field)
    requires Registered(role, idx, f) && f.cfg.maxWidth.Some?
    ensures role == Rdc && idx == 0
    ensures f.key in {FirstName, LastName, FullName, ParentName}
    ensures f.cfg.maxWidth.value == (if f.key == FullName then 320 else if f.key == ParentName then 260 else 200)
    ensures f.cfg.minSize.None?
  {
    RegisteredCases(role, idx, f);
  }

  /** Every text entry of the shipped tables is 12 points with no `minSize`. */
  lemma TextFieldSizes(role: Role, idx: nat, f: Field)
    requires Registered(role, idx, f) && !IsSignatureKey(f.key)
    ensures f.cfg.size == Some(12) && f.cfg.minSize.None?
  {
    SignatureKeyNames(f.key);
    RegisteredCases(role, idx, f);
  }

  /** An entry found on a page of a template's table is registered there. */
  lemma FieldsOnRegistered(role: Role, idx: nat, f: Field)
    requires f in FieldsOn(Pages(role), idx)
    ensures Registered(role, idx, f)
  {
    FieldsOnListed(Pages(role), idx);
  }

  /** Keys registered in the tables that the overlay has no value for. */
  lemma RegisteredKeys()
    ensures Registered(Waiver, 0, Field(Name, Fixed(200, 730, 12)))
    ensures Registered(Boat, 2, Field(YouthName, Fixed(180, 160, 12)))
    ensures Registered(Boat, 2, Field(YouthDob, Fixed(410, 160, 12)))
    ensures Registered(Medical, 0, Field(ParticipantName, Fixed(170, 155, 12)))
    ensures Registered(Medical, 0, Field(Birthdate, Fixed(400, 155, 12)))
    ensures Registered(Medical, 0, Field(FacilityName, Fixed(170, 135, 12)))
  {
    assert Pages(Waiver)[0].fields[0] == Field(Name, Fixed(200, 730, 12));
    assert Pages(Boat)[2].index == 2;
    assert Pages(Boat)[2].fields[0] == Field(YouthName, Fixed(180, 160, 12));
    assert Pages(Boat)[2].fields[1] == Field(YouthDob, Fixed(410, 160, 12));
    assert Pages(Medical)[0].fields[0] == Field(ParticipantName, Fixed(170, 155, 12));
    assert Pages(Medical)[0].fields[1] == Field(Birthdate, Fixed(400, 155, 12));
    assert Pages(Medical)[0].fields[2] == Field(FacilityName, Fixed(170, 135, 12));
  }

  /** The boat waiver's page 1 has no entries; page 2 has exactly the youth's
      name and date of birth and the parent's name and date. */
  lemma BoatPageEntries()
    ensures FieldsOn(Pages(Boat), 1) == []
    ensures Keys(FieldsOn(Pages(Boat), 2)) == [YouthName, YouthDob, ParentName, ParentDate]
  {
    BoatPageOne();
    BoatPageTwo();
    BoatPageTwoKeys();
  }

  lemma BoatPageOne()
    ensures FieldsOn(Pages(Boat), 1) == []
  {
    assert BoatPages[1..][0] == PageFields(1, []);
  }

  lemma BoatPageTwo()
    ensures FieldsOn(Pages(Boat), 2) == BoatPages[2].fields
  {
    assert BoatPages[1..][1..][0] == BoatPages[2];
  }

  lemma BoatPageTwoKeys()
    ensures Keys(BoatPages[2].fields) == [YouthName, YouthDob, ParentName, ParentDate]
  {
  }

  /** No file and page of the checkbox table has a checkbox point. */
  lemma NoCheckboxes(file: string, idx: nat)
    ensures BoxesOn(FileBoxes(file), idx) == []
  {
  }

  /** Page order and key uniqueness hold for every template's table. */
  lemma CoordTablesWellFormed(role: Role)
    ensures WellFormedPages(Pages(role))
  {
    RdcWellFormed();
    WaiverWellFormed();
    BoatWellFormed();
    MedicalWellFormed();
    YouthWellFormed();
  }

  lemma RdcWellFormed() ensures WellFormedPages(Pages(Rdc)) {
    assert Pages(Rdc) == RdcPages;
    assert DistinctKeys(RdcPages[0].fields);
  }

  lemma WaiverWellFormed() ensures WellFormedPages(Pages(Waiver)) {
    assert Pages(Waiver) == WaiverPages;
    assert DistinctKeys(WaiverPages[0].fields);
  }

  lemma BoatWellFormed() ensures WellFormedPages(Pages(Boat)) {
    assert Pages(Boat) == BoatPages;
    assert DistinctKeys(BoatPages[0].fields);
    assert DistinctKeys(BoatPages[1].fields);
    assert DistinctKeys(BoatPages[2].fields);
  }

  lemma MedicalWellFormed() ensures WellFormedPages(Pages(Medical)) {
    assert Pages(Medical) == MedicalPages;
    assert DistinctKeys(MedicalPages[0].fields);
  }

  lemma YouthWellFormed() ensures WellFormedPages(Pages(Youth)) {
    assert Pages(Youth) == YouthPages;
    assert DistinctKeys(YouthPages[0].fields);
  }
}
