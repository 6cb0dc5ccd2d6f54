/** `overlayWithData` and `drawFittedText` of backend/pdfHandler.js: which
    texts, checkbox marks and signature images are drawn on which page of a
    template, and at what font size. The document itself is left out: what is
    modelled is the sequence of draw commands, in the order they are made.
    Font sizes are counted in half-points, the step of the shrink loop; the
    width of a text in Helvetica is a parameter. */
module Overlay {
  import opened Wrappers
  import opened Strings
  import opened Dates
  import opened Submissions
  import opened Names
  import opened FieldMap
  import opened CoordMap

  /** `font.widthOfTextAtSize(text, size)`, the size in half-points. */
  type WidthFn = (string, int) -> real

  datatype Signer = Guest | Guardian

  /** One draw command. `Text` records the table key it came from; a `Mark`
      is the letter "X" at size 12 drawn for a checkbox. */
  datatype Draw =
    | Text(page: nat, key: Key, text: string, x: int, y: int, halfPoints: int)
    | Mark(page: nat, flag: string, x: int, y: int)
    | Image(page: nat, signer: Signer, x: int, y: int)

  /** The value bag of `overlayWithData`. */
  datatype ValueBag = ValueBag(
    firstName: string,
    middleName: string,
    lastName: string,
    fullName: string,
    middleInitial: string,
    initials: string,
    dob: string,
    date: string,
    parentDate: string,
    email: string,
    phone: string,
    diveCenter: string,
    today: string,
    parentName: string)

  /** `input || new Date()` as the argument of `toDDMMYYYY`. */
  function DateOr(input: DateInput, fallback: Option<CalendarDate>): Option<CalendarDate> {
    match input
    case Missing => fallback
    case Given(parsed) => parsed
  }

  /** `Array.isArray(data.centers) ? data.centers.join(' & ') : (data.centers || data.center || '')` */
  function DiveCenter(data: Submission): string {
    match data.centers
    case Listed(names) => Join(names, " & ")
    case Scalar(name) => if name != "" then name else data.center
  }

  /** The value bag built from the name parts, the submission and today's date. */
  function MakeBag(np: NameParts, data: Submission, now: CalendarDate): ValueBag {
    ValueBag(
      np.firstName, np.middleName, np.lastName, np.fullName, np.middleInitial, np.initials,
      ToDDMMYYYY(data.dob),
      ToDDMMYYYY(DateOr(data.guestFillingDate, Some(now))),
      ToDDMMYYYY(DateOr(data.parentGuardianDate, DateOr(data.guestFillingDate, Some(now)))),
      data.email, data.phone, DiveCenter(data),
      ToDDMMYYYY(Some(now)),
      data.parentName)
  }

  /** `bag[key]` for a key of the coordinate table; "" stands for a key the bag
      does not have (its value is `undefined`, which is falsy). */
  function BagValue(bag: ValueBag, k: Key): string {
    match k
    case FirstName => bag.firstName
    case LastName => bag.lastName
    case FullName => bag.fullName
    case Date => bag.date
    case ParentName => bag.parentName
    case ParentDate => bag.parentDate
    case _ => ""
  }

  /** `n || d` for an optional number. */
  function OrDefault(n: Option<nat>, d: nat): nat {
    if n.Some? && n.value != 0 then n.value else d
  }

  predicate IsSet(n: Option<nat>) {
    n.Some? && n.value != 0
  }

  /* ---- drawFittedText ---- */

  /** The size the shrink loop ends at: from `base`, one half-point down
      while the text is wider than `maxWidth` and the size is at least `min`. */
  function FittedSize(text: string, base: int, min: int, maxWidth: real, width: WidthFn): (r: int)
    ensures r <= base
    ensures base < min ==> r == base
    ensures base >= min ==> min - 1 <= r
    ensures r >= min ==> width(text, r) <= maxWidth
    ensures r < min && base >= min ==> r == min - 1
    ensures forall s :: r < s <= base && min <= s ==> width(text, s) > maxWidth
    decreases base - min + 1
  {
    if base < min then base
    else if width(text, base) <= maxWidth then base
    else FittedSize(text, base - 1, min, maxWidth, width)
  }

  /** `drawFittedText`: nothing for an empty text, otherwise one draw of the
      whole text at the size the shrink loop ends at. */
  method DrawFittedText(page: nat, key: Key, text: string, x: int, y: int,
                        base: int, min: int, maxWidth: real, width: WidthFn)
    returns (ds: seq<Draw>)
    ensures ds == if text == "" then [] else [Text(page, key, text, x, y, FittedSize(text, base, min, maxWidth, width))]
  {
    if text == "" {
      return [];
    }
    var size := base;
    while size >= min
      invariant size <= base
      invariant FittedSize(text, size, min, maxWidth, width) == FittedSize(text, base, min, maxWidth, width)
      decreases size - min + 1
    {
      if width(text, size) <= maxWidth {
        break;
      }
      size := size - 1;
    }
    ds := [Text(page, key, text, x, y, size)];
  }

  /* ---- Text and checkbox pass ---- */

  /** Whether an entry draws: it has both coordinates, its key does not start
      with "sig", and its value is a non-empty string. */
  predicate Drawable(f: Field, bag: ValueBag) {
    f.cfg.x.Some? && f.cfg.y.Some? && !IsSignatureKey(f.key) && BagValue(bag, f.key) != ""
  }

  /** A size chosen for a descriptor: `cfg.size || 11` points, or for a
      shrinkable entry anything from half a point below `cfg.minSize || 8`
      up to that. */
  predicate SizedFrom(halfPoints: int, cfg: Placement) {
    var base := 2 * OrDefault(cfg.size, 11);
    halfPoints == base
    || (IsSet(cfg.maxWidth) && 2 * OrDefault(cfg.minSize, 8) - 1 <= halfPoints < base)
  }

  /** The size the entry's text is drawn at: `cfg.size || 11` points, or,
      when `cfg.maxWidth` is set, the size the shrink loop reaches from there
      with floor `cfg.minSize || 8`. */
  predicate SizedFor(halfPoints: int, text: string, cfg: Placement, width: WidthFn) {
    var base := 2 * OrDefault(cfg.size, 11);
    if IsSet(cfg.maxWidth) then
      halfPoints == FittedSize(text, base, 2 * OrDefault(cfg.minSize, 8), cfg.maxWidth.value as real, width)
    else halfPoints == base
  }

  /** The draw made for one entry of a page: at `cfg.size || 11` points, or
      shrunk to `cfg.maxWidth` with floor `cfg.minSize || 8` when that is set. */
  function FieldDraw(page: nat, f: Field, bag: ValueBag, width: WidthFn): (ds: seq<Draw>)
    ensures |ds| <= 1
    ensures |ds| == 1 <==> Drawable(f, bag)
    ensures |ds| == 1 ==>
      ds[0].Text? && ds[0].page == page && ds[0].key == f.key
      && ds[0].text == BagValue(bag, f.key)
      && ds[0].x == f.cfg.x.value && ds[0].y == f.cfg.y.value
      && SizedFrom(ds[0].halfPoints, f.cfg)
      && SizedFor(ds[0].halfPoints, ds[0].text, f.cfg, width)
  {
    if !Drawable(f, bag) then []
    else
      var val := BagValue(bag, f.key);
      var base := 2 * OrDefault(f.cfg.size, 11);
      var size :=
        if IsSet(f.cfg.maxWidth) then FittedSize(val, base, 2 * OrDefault(f.cfg.minSize, 8), f.cfg.maxWidth.value as real, width)
        else base;
      [Text(page, f.key, val, f.cfg.x.value, f.cfg.y.value, size)]
  }

  /** The text draws of one page, entry by entry. */
  function PageTextDraws(page: nat, fs: seq<Field>, bag: ValueBag, width: WidthFn): seq<Draw> {
    if fs == [] then []
    else PageTextDraws(page, fs[..|fs| - 1], bag, width) + FieldDraw(page, fs[|fs| - 1], bag, width)
  }

  /** An "X" at each checkbox point whose flag is `true` in the submission. */
  function BoxMark(page: nat, b: Checkbox, flags: set<string>): seq<Draw> {
    if b.flag in flags then [Mark(page, b.flag, b.x, b.y)] else []
  }

  function PageMarks(page: nat, boxes: seq<Checkbox>, flags: set<string>): seq<Draw> {
    if boxes == [] then []
    else PageMarks(page, boxes[..|boxes| - 1], flags) + BoxMark(page, boxes[|boxes| - 1], flags)
  }

  /** The text and checkbox draws of the first `n` pages. */
  function TextPass(n: nat, pages: seq<PageFields>, boxes: seq<PageBoxes>, bag: ValueBag,
                    flags: set<string>, width: WidthFn): seq<Draw> {
    if n == 0 then []
    else
      TextPass(n - 1, pages, boxes, bag, flags, width)
      + PageDraws(n - 1, FieldsOn(pages, n - 1), BoxesOn(boxes, n - 1), bag, flags, width)
  }

  /** The draws of one page: its text entries, then its checkbox points. */
  function PageDraws(page: nat, fs: seq<Field>, boxes: seq<Checkbox>, bag: ValueBag,
                     flags: set<string>, width: WidthFn): seq<Draw> {
    PageTextDraws(page, fs, bag, width) + PageMarks(page, boxes, flags)
  }

  /* ---- Signature pass ---- */

  /** `drawSignatureFitted`: one image at the box's corner, if the box has both
      coordinates and the bytes embed (a failed embed is caught and skipped). */
  function SignatureDraw(page: nat, signer: Signer, sig: Signature, c: Placement): seq<Draw> {
    if c.x.None? || c.y.None? || !sig.embeddable then []
    else [Image(page, signer, c.x.value, c.y.value)]
  }

  /** The box found for a signer, used only when it has an `x`. */
  function SignatureFor(page: nat, signer: Signer, sig: Signature, box: Option<Placement>): seq<Draw> {
    match box
    case None => []
    case Some(c) => if c.x.None? then [] else SignatureDraw(page, signer, sig, c)
  }

  /** The signature draws for one listed page. */
  function PageSignatures(page: nat, fields: seq<Field>, guestSig: Option<Signature>,
                          guardianSig: Option<Signature>, minor: bool): seq<Draw> {
    (if guestSig.Some? then SignatureFor(page, Guest, guestSig.value, FindField(fields, SigGuest)) else [])
    + (if minor && guardianSig.Some? then SignatureFor(page, Guardian, guardianSig.value, FindField(fields, SigGuardian)) else [])
  }

  /** The signature draws over the listed pages, in ascending page order;
      pages past the end of the document are skipped. */
  function SigPass(ps: seq<PageFields>, pageCount: nat, guestSig: Option<Signature>,
                   guardianSig: Option<Signature>, minor: bool): seq<Draw> {
    if ps == [] then []
    else
      var last := ps[|ps| - 1];
      SigPass(ps[..|ps| - 1], pageCount, guestSig, guardianSig, minor)
      + (if last.index < pageCount then PageSignatures(last.index, last.fields, guestSig, guardianSig, minor) else [])
  }

  /** The draws on a document of `pageCount` pages for the tables `pages` and
      `boxes`: the text and checkbox pass, then the signature pass when a
      signature image is supplied. */
  function OverlayDraws(pages: seq<PageFields>, boxes: seq<PageBoxes>, pageCount: nat, bag: ValueBag,
                        flags: set<string>, guestSig: Option<Signature>, guardianSig: Option<Signature>,
                        minor: bool, width: WidthFn): seq<Draw> {
    TextPass(pageCount, pages, boxes, bag, flags, width)
    + (if guestSig.Some? || guardianSig.Some? then SigPass(pages, pageCount, guestSig, guardianSig, minor) else [])
  }

  /** All draws `overlayWithData` makes on a template of `pageCount` pages. */
  function OverlayPlan(file: string, pageCount: nat, data: Submission, guestSig: Option<Signature>,
                       guardianSig: Option<Signature>, now: CalendarDate, width: WidthFn): seq<Draw> {
    OverlayDraws(FilePages(file), FileBoxes(file), pageCount, MakeBag(SplitName(data), data, now),
      data.flags, guestSig, guardianSig, IsMinor(data.dob, now), width)
  }

  /** `overlayWithData`, page by page and entry by entry as the source loops. */
  method OverlayWithData(file: string, pageCount: nat, data: Submission, guestSig: Option<Signature>,
                         guardianSig: Option<Signature>, now: CalendarDate, width: WidthFn)
    returns (draws: seq<Draw>)
    ensures draws == OverlayPlan(file, pageCount, data, guestSig, guardianSig, now, width)
  {
    var nameParts := BuildNameParts(data);
    var bag := MakeBag(nameParts, data, now);
    var coords := FilePages(file);
    draws := DrawPages(pageCount, coords, FileBoxes(file), bag, data.flags, width);
    if guestSig.Some? || guardianSig.Some? {
      var sigDraws := DrawSignatures(coords, pageCount, guestSig, guardianSig, IsMinor(data.dob, now));
      draws := draws + sigDraws;
    }
  }

  /** `pages.forEach(...)` over the document's pages. */
  method DrawPages(pageCount: nat, coords: seq<PageFields>, cbox: seq<PageBoxes>, bag: ValueBag,
                   flags: set<string>, width: WidthFn)
    returns (draws: seq<Draw>)
    ensures draws == TextPass(pageCount, coords, cbox, bag, flags, width)
  {
    draws := [];
    var idx := 0;
    while idx < pageCount
      invariant idx <= pageCount
      invariant draws == TextPass(idx, coords, cbox, bag, flags, width)
    {
      var pageDraws := DrawPage(idx, FieldsOn(coords, idx), BoxesOn(cbox, idx), bag, flags, width);
      draws := draws + pageDraws;
      idx := idx + 1;
    }
  }

  /** The callback of `pages.forEach`: the page's text entries, then its
      checkbox points. */
  method DrawPage(idx: nat, textCfgs: seq<Field>, cbCfgs: seq<Checkbox>, bag: ValueBag,
                  flags: set<string>, width: WidthFn)
    returns (draws: seq<Draw>)
    ensures draws == PageDraws(idx, textCfgs, cbCfgs, bag, flags, width)
  {
    var texts := DrawTexts(idx, textCfgs, bag, width);
    var marks := DrawMarks(idx, cbCfgs, flags);
    draws := texts + marks;
  }

  /** `Object.entries(textCfgs).forEach(...)` */
  method DrawTexts(idx: nat, textCfgs: seq<Field>, bag: ValueBag, width: WidthFn)
    returns (draws: seq<Draw>)
    ensures draws == PageTextDraws(idx, textCfgs, bag, width)
  {
    draws := [];
    var j := 0;
    while j < |textCfgs|
      invariant j <= |textCfgs|
      invariant draws == PageTextDraws(idx, textCfgs[..j], bag, width)
    {
      var d := DrawEntry(idx, textCfgs[j], bag, width);
      assert textCfgs[..j + 1][..j] == textCfgs[..j];
      draws := draws + d;
      j := j + 1;
    }
    assert textCfgs[..j] == textCfgs;
  }

  /** `Object.entries(cbCfgs).forEach(...)`: an "X" where `data[flagKey] === true`. */
  method DrawMarks(idx: nat, cbCfgs: seq<Checkbox>, flags: set<string>)
    returns (marks: seq<Draw>)
    ensures marks == PageMarks(idx, cbCfgs, flags)
  {
    marks := [];
    var k := 0;
    while k < |cbCfgs|
      invariant k <= |cbCfgs|
      invariant marks == PageMarks(idx, cbCfgs[..k], flags)
    {
      var b := cbCfgs[k];
      assert cbCfgs[..k + 1][..k] == cbCfgs[..k];
      if b.flag in flags {
        marks := marks + [Mark(idx, b.flag, b.x, b.y)];
      }
      k := k + 1;
    }
    assert cbCfgs[..k] == cbCfgs;
  }

  /** The signature loop over the table's page indices. */
  method DrawSignatures(coords: seq<PageFields>, pageCount: nat, guestSig: Option<Signature>,
                        guardianSig: Option<Signature>, isMinor: bool)
    returns (draws: seq<Draw>)
    ensures draws == SigPass(coords, pageCount, guestSig, guardianSig, isMinor)
  {
    draws := [];
    var k := 0;
    while k < |coords|
      invariant k <= |coords|
      invariant draws == SigPass(coords[..k], pageCount, guestSig, guardianSig, isMinor)
    {
      assert coords[..k + 1][..k] == coords[..k];
      var i := coords[k].index;
      if i < pageCount {
        var pageDraws := DrawPageSignatures(i, coords[k].fields, guestSig, guardianSig, isMinor);
        draws := draws + pageDraws;
      }
      k := k + 1;
    }
    assert coords[..k] == coords;
  }

  /** The body of the signature loop for page `i`: the guest's signature when
      guest bytes are given and the box has an `x`, the guardian's likewise
      and only for a minor. */
  method DrawPageSignatures(i: nat, cfg: seq<Field>, guestSig: Option<Signature>,
                            guardianSig: Option<Signature>, isMinor: bool)
    returns (draws: seq<Draw>)
    ensures draws == PageSignatures(i, cfg, guestSig, guardianSig, isMinor)
  {
    draws := [];
    if guestSig.Some? {
      match FindField(cfg, SigGuest)
      case Some(c) =>
        if c.x.Some? {
          draws := draws + SignatureDraw(i, Guest, guestSig.value, c);
        }
      case None =>
    }
    if isMinor && guardianSig.Some? {
      match FindField(cfg, SigGuardian)
      case Some(c) =>
        if c.x.Some? {
          draws := draws + SignatureDraw(i, Guardian, guardianSig.value, c);
        }
      case None =>
    }
  }

  /** One entry of the text pass: the checks in the source's order, then a
      plain or a fitted draw. */
  method DrawEntry(idx: nat, f: Field, bag: ValueBag, width: WidthFn) returns (ds: seq<Draw>)
    ensures ds == FieldDraw(idx, f, bag, width)
  {
    if f.cfg.x.None? || f.cfg.y.None? {
      return [];
    }
    if IsSignatureKey(f.key) {
      return [];
    }
    var val := BagValue(bag, f.key);
    if val == "" {
      return [];
    }
    if IsSet(f.cfg.maxWidth) {
      ds := DrawFittedText(idx, f.key, val, f.cfg.x.value, f.cfg.y.value,
        2 * OrDefault(f.cfg.size, 11), 2 * OrDefault(f.cfg.minSize, 8), f.cfg.maxWidth.value as real, width);
    } else {
      ds := [Text(idx, f.key, val, f.cfg.x.value, f.cfg.y.value, 2 * OrDefault(f.cfg.size, 11))];
    }
  }
}
