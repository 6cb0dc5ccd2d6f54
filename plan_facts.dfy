/** What `overlayWithData` does with the shipped coordinate and checkbox
    tables: which templates get anything at all, which values are drawn at
    which sizes, that no checkbox is ever marked, and exactly where the two
    signatures land. */
module PlanFacts {
  import opened Wrappers
  import opened Dates
  import opened Submissions
  import opened Names
  import opened FieldMap
  import opened CoordMap
  import opened Overlay
  import opened OverlayFacts

  /** A file with no table gets nothing from the text pass. */
  lemma {:induction false} EmptyTablesDrawNothing(n: nat, bag: ValueBag, flags: set<string>, width: WidthFn)
    ensures TextPass(n, [], [], bag, flags, width) == []
  {
    if n > 0 {
      EmptyTablesDrawNothing(n - 1, bag, flags, width);
      assert PageDraws(n - 1, FieldsOn([], n - 1), BoxesOn([], n - 1), bag, flags, width) == [];
    }
  }

  /** A file that is none of the five templates is saved unchanged. */
  lemma UnknownFilePlan(file: string, pageCount: nat, data: Submission, guestSig: Option<Signature>,
                        guardianSig: Option<Signature>, now: CalendarDate, width: WidthFn)
    requires forall role :: FormFile(role) != file
    ensures OverlayPlan(file, pageCount, data, guestSig, guardianSig, now, width) == []
  {
    RoleOfFileNames(file);
    assert FilePages(file) == [] && FileBoxes(file) == [];
    var bag := MakeBag(SplitName(data), data, now);
    EmptyTablesDrawNothing(pageCount, bag, data.flags, width);
  }

  /** Whatever the plan draws is on a page of the document. */
  lemma PlanPagesInRange(file: string, pageCount: nat, data: Submission, guestSig: Option<Signature>,
                         guardianSig: Option<Signature>, now: CalendarDate, width: WidthFn)
    ensures forall d :: d in OverlayPlan(file, pageCount, data, guestSig, guardianSig, now, width) ==> d.page < pageCount
  {
    var bag := MakeBag(SplitName(data), data, now);
    forall d | d in OverlayPlan(file, pageCount, data, guestSig, guardianSig, now, width)
      ensures d.page < pageCount
    {
      OverlayDrawSound(FilePages(file), FileBoxes(file), pageCount, bag, data.flags, guestSig, guardianSig,
        IsMinor(data.dob, now), width, d);
    }
  }

  /** No checkbox is ever marked: the checkbox table lists no point. */
  lemma PlanHasNoMarks(file: string, pageCount: nat, data: Submission, guestSig: Option<Signature>,
                       guardianSig: Option<Signature>, now: CalendarDate, width: WidthFn)
    ensures forall d :: d in OverlayPlan(file, pageCount, data, guestSig, guardianSig, now, width) ==> !d.Mark?
  {
    var bag := MakeBag(SplitName(data), data, now);
    forall d | d in OverlayPlan(file, pageCount, data, guestSig, guardianSig, now, width)
      ensures !d.Mark?
    {
      OverlayDrawSound(FilePages(file), FileBoxes(file), pageCount, bag, data.flags, guestSig, guardianSig,
        IsMinor(data.dob, now), width, d);
      NoCheckboxes(file, d.page);
    }
  }

  /** A text draw of the shipped tables: a non-empty value under one of the
      six bag keys, at 12 points, or, only for the four name entries of the
      RDC form's page 0, shrunk to no less than 7.5 points. */
  predicate ShippedText(d: Draw, file: string) {
    d.Text? && d.text != "" && BagKey(d.key)
    && 15 <= d.halfPoints <= 24
    && (d.halfPoints < 24 ==>
          file == FormFile(Rdc) && d.page == 0
          && (d.key.FirstName? || d.key.LastName? || d.key.FullName? || d.key.ParentName?))
  }

  lemma ShippedTextOfEntry(file: string, role: Role, d: Draw, f: Field, bag: ValueBag, width: WidthFn)
    requires RoleOfFile(file) == Some(role)
    requires f in FieldsOn(Pages(role), d.page) && Drawable(f, bag) && FromField(d, f, bag, width)
    ensures ShippedText(d, file)
  {
    RoleOfFileNames(file);
    FieldsOnRegistered(role, d.page, f);
    TextFieldSizes(role, d.page, f);
    BagKeys(bag, f.key);
    if d.halfPoints < 24 {
      MaxWidthOnlyOnRdcNames(role, d.page, f);
    }
  }

  /** Every text the plan draws is a shipped text. */
  lemma PlanTexts(file: string, pageCount: nat, data: Submission, guestSig: Option<Signature>,
                  guardianSig: Option<Signature>, now: CalendarDate, width: WidthFn)
    ensures forall d ::
      (d in OverlayPlan(file, pageCount, data, guestSig, guardianSig, now, width) && d.Text?) ==> ShippedText(d, file)
  {
    var bag := MakeBag(SplitName(data), data, now);
    var plan := OverlayPlan(file, pageCount, data, guestSig, guardianSig, now, width);
    RoleOfFileNames(file);
    if RoleOfFile(file).None? {
      UnknownFilePlan(file, pageCount, data, guestSig, guardianSig, now, width);
    } else {
      var role := RoleOfFile(file).value;
      forall d | d in plan && d.Text?
        ensures ShippedText(d, file)
      {
        OverlayDrawSound(Pages(role), Boxes(role), pageCount, bag, data.flags, guestSig, guardianSig,
          IsMinor(data.dob, now), width, d);
        var f :| f in FieldsOn(Pages(role), d.page) && Drawable(f, bag) && FromField(d, f, bag, width);
        ShippedTextOfEntry(file, role, d, f, bag, width);
      }
    }
  }

  /** An entry of a template's table on a page of the document is drawn
      exactly when it is not a signature box and its value is non-empty, and
      then with its value at its own position. */
  lemma PlanTextDrawnIff(role: Role, pageCount: nat, data: Submission, guestSig: Option<Signature>,
                         guardianSig: Option<Signature>, now: CalendarDate, width: WidthFn, idx: nat, f: Field)
    requires idx < pageCount && f in FieldsOn(Pages(role), idx)
    ensures var bag := MakeBag(SplitName(data), data, now);
      (!IsSignatureKey(f.key) && BagValue(bag, f.key) != "") <==>
      exists d :: d in OverlayPlan(FormFile(role), pageCount, data, guestSig, guardianSig, now, width)
        && d.Text? && d.page == idx && d.key == f.key && d.text == BagValue(bag, f.key)
        && f.cfg.x == Some(d.x) && f.cfg.y == Some(d.y)
  {
    var bag := MakeBag(SplitName(data), data, now);
    RoleOfFormFile(role);
    CoordTablesWellFormed(role);
    FieldsOnRegistered(role, idx, f);
    AllDescriptorsHaveCoordinates(role, idx, f);
    TextDrawnIff(Pages(role), Boxes(role), pageCount, bag, data.flags, guestSig, guardianSig,
      IsMinor(data.dob, now), width, idx, f);
  }

  /* ---- Signatures ---- */

  /** The signature images a file gets. */
  function PlanSignatures(file: string, pageCount: nat, guestSig: Option<Signature>,
                          guardianSig: Option<Signature>, minor: bool): seq<Draw> {
    match RoleOfFile(file)
    case Some(role) => ExpectedSignatures(role, pageCount, guestSig, guardianSig, minor)
    case None => []
  }

  lemma ExpectedSignaturesWithoutBytes(role: Role, pageCount: nat, minor: bool)
    ensures ExpectedSignatures(role, pageCount, None, None, minor) == []
  {
  }

  /** The plan is the text pass followed by the file's signature images. */
  lemma PlanSplits(file: string, pageCount: nat, data: Submission, guestSig: Option<Signature>,
                   guardianSig: Option<Signature>, now: CalendarDate, width: WidthFn)
    ensures OverlayPlan(file, pageCount, data, guestSig, guardianSig, now, width)
      == TextPass(pageCount, FilePages(file), FileBoxes(file), MakeBag(SplitName(data), data, now), data.flags, width)
         + PlanSignatures(file, pageCount, guestSig, guardianSig, IsMinor(data.dob, now))
  {
    var minor := IsMinor(data.dob, now);
    match RoleOfFile(file)
    case Some(role) =>
      SigPassOfRole(role, pageCount, guestSig, guardianSig, minor);
      ExpectedSignaturesWithoutBytes(role, pageCount, minor);
    case None =>
  }

  /** The file's signature images: at most the guest's at (264, 87) and the
      guardian's at (264, 54), both on page 0; the guest's exactly for the
      RDC form with a page and guest bytes that embed, the guardian's
      exactly when also the guest is a minor and guardian bytes embed. */
  lemma PlanSignaturesShape(file: string, pageCount: nat, guestSig: Option<Signature>,
                            guardianSig: Option<Signature>, minor: bool)
    ensures forall d :: d in PlanSignatures(file, pageCount, guestSig, guardianSig, minor) ==>
      d == Image(0, Guest, 264, 87) || d == Image(0, Guardian, 264, 54)
    ensures Image(0, Guest, 264, 87) in PlanSignatures(file, pageCount, guestSig, guardianSig, minor)
      <==> file == FormFile(Rdc) && pageCount > 0 && guestSig.Some? && guestSig.value.embeddable
    ensures Image(0, Guardian, 264, 54) in PlanSignatures(file, pageCount, guestSig, guardianSig, minor)
      <==> file == FormFile(Rdc) && pageCount > 0 && minor && guardianSig.Some? && guardianSig.value.embeddable
  {
    match RoleOfFile(file)
    case Some(role) =>
      RoleOfFileNames(file);
      FormFilesDistinct(role, Rdc);
    case None =>
      RoleOfFormFile(Rdc);
  }

  /** The guest's signature is drawn exactly for the RDC form with a page
      and guest bytes that embed, and only at (264, 87) on page 0. */
  lemma GuestSignatureIff(file: string, pageCount: nat, data: Submission, guestSig: Option<Signature>,
                          guardianSig: Option<Signature>, now: CalendarDate, width: WidthFn)
    ensures (exists d :: d in OverlayPlan(file, pageCount, data, guestSig, guardianSig, now, width)
               && d.Image? && d.signer == Guest)
      <==> (file == FormFile(Rdc) && pageCount > 0 && guestSig.Some? && guestSig.value.embeddable)
    ensures forall d ::
      (d in OverlayPlan(file, pageCount, data, guestSig, guardianSig, now, width) && d.Image? && d.signer == Guest)
      ==> d == Image(0, Guest, 264, 87)
  {
    var minor := IsMinor(data.dob, now);
    SignaturesOfPlan(file, pageCount, data, guestSig, guardianSig, now, width);
    PlanSignaturesShape(file, pageCount, guestSig, guardianSig, minor);
    var g := Image(0, Guest, 264, 87);
    assert g in PlanSignatures(file, pageCount, guestSig, guardianSig, minor)
      ==> g in OverlayPlan(file, pageCount, data, guestSig, guardianSig, now, width);
  }

  /** The guardian's signature is drawn exactly for a minor on the RDC form
      with a page and guardian bytes that embed, and only at (264, 54) on
      page 0. */
  lemma GuardianSignatureIff(file: string, pageCount: nat, data: Submission, guestSig: Option<Signature>,
                             guardianSig: Option<Signature>, now: CalendarDate, width: WidthFn)
    ensures (exists d :: d in OverlayPlan(file, pageCount, data, guestSig, guardianSig, now, width)
               && d.Image? && d.signer == Guardian)
      <==> (file == FormFile(Rdc) && pageCount > 0 && IsMinor(data.dob, now)
            && guardianSig.Some? && guardianSig.value.embeddable)
    ensures forall d ::
      (d in OverlayPlan(file, pageCount, data, guestSig, guardianSig, now, width) && d.Image? && d.signer == Guardian)
      ==> d == Image(0, Guardian, 264, 54)
  {
    var minor := IsMinor(data.dob, now);
    SignaturesOfPlan(file, pageCount, data, guestSig, guardianSig, now, width);
    PlanSignaturesShape(file, pageCount, guestSig, guardianSig, minor);
    var g := Image(0, Guardian, 264, 54);
    assert g in PlanSignatures(file, pageCount, guestSig, guardianSig, minor)
      ==> g in OverlayPlan(file, pageCount, data, guestSig, guardianSig, now, width);
  }

  /** The images of the plan are exactly the file's signature images. */
  lemma SignaturesOfPlan(file: string, pageCount: nat, data: Submission, guestSig: Option<Signature>,
                         guardianSig: Option<Signature>, now: CalendarDate, width: WidthFn)
    ensures forall d ::
      (d in OverlayPlan(file, pageCount, data, guestSig, guardianSig, now, width) && d.Image?)
      <==> d in PlanSignatures(file, pageCount, guestSig, guardianSig, IsMinor(data.dob, now))
  {
    var bag := MakeBag(SplitName(data), data, now);
    var tp := TextPass(pageCount, FilePages(file), FileBoxes(file), bag, data.flags, width);
    var sigs := PlanSignatures(file, pageCount, guestSig, guardianSig, IsMinor(data.dob, now));
    PlanSplits(file, pageCount, data, guestSig, guardianSig, now, width);
    PlanSignaturesShape(file, pageCount, guestSig, guardianSig, IsMinor(data.dob, now));
    forall d | d in tp
      ensures !d.Image?
    {
      TextPassSound(pageCount, FilePages(file), FileBoxes(file), bag, data.flags, width, d);
    }
  }

  /* ---- Values ---- */

  /** The guest's date is today's unless a filling date is given, and empty
      (so not drawn) exactly when a given filling date does not parse. */
  lemma GuestDateValue(data: Submission, now: CalendarDate)
    ensures var bag := MakeBag(SplitName(data), data, now);
      (BagValue(bag, Key.Date) == "" <==> data.guestFillingDate == Given(None))
      && (data.guestFillingDate.Missing? ==> BagValue(bag, Key.Date) == ToDDMMYYYY(Some(now)))
  {
  }

  /** The parent's date falls back to the guest's date, and is empty exactly
      when the date it comes from is given and does not parse. */
  lemma ParentDateValue(data: Submission, now: CalendarDate)
    ensures var bag := MakeBag(SplitName(data), data, now);
      (BagValue(bag, ParentDate) == "" <==>
         data.parentGuardianDate == Given(None)
         || (data.parentGuardianDate.Missing? && data.guestFillingDate == Given(None)))
      && (data.parentGuardianDate.Missing? ==> BagValue(bag, ParentDate) == BagValue(bag, Key.Date))
  {
  }
}
