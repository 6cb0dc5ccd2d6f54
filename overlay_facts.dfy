/** What the overlay plan promises: which entries are drawn, with which
    value, where and at which size; that checkbox marks follow the flags;
    and where signatures can appear, for any table and for the shipped one. */
module OverlayFacts {
  import opened Wrappers
  import opened Dates
  import opened Submissions
  import opened Names
  import opened FieldMap
  import opened CoordMap
  import opened Overlay

  /** `d` is the text draw of entry `f` with the bag's value, at the size
      the entry gives it. */
  predicate FromField(d: Draw, f: Field, bag: ValueBag, width: WidthFn) {
    d.Text? && d.key == f.key && d.text == BagValue(bag, f.key)
    && f.cfg.x.Some? && f.cfg.y.Some? && d.x == f.cfg.x.value && d.y == f.cfg.y.value
    && SizedFrom(d.halfPoints, f.cfg) && SizedFor(d.halfPoints, d.text, f.cfg, width)
  }

  /** `d` is the mark of checkbox `b`, whose flag is set. */
  predicate FromBox(d: Draw, b: Checkbox, flags: set<string>) {
    d.Mark? && b.flag in flags && d.flag == b.flag && d.x == b.x && d.y == b.y
  }

  /* ---- One page ---- */

  lemma {:induction false} PageTextDrawsSound(p: nat, fs: seq<Field>, bag: ValueBag, width: WidthFn)
    ensures forall d :: d in PageTextDraws(p, fs, bag, width) ==>
      d.Text? && d.page == p && exists f :: f in fs && Drawable(f, bag) && FromField(d, f, bag, width)
  {
    if fs != [] {
      var init, last := fs[..|fs| - 1], fs[|fs| - 1];
      PageTextDrawsSound(p, init, bag, width);
      forall d | d in PageTextDraws(p, fs, bag, width)
        ensures d.Text? && d.page == p && exists f :: f in fs && Drawable(f, bag) && FromField(d, f, bag, width)
      {
        if d in PageTextDraws(p, init, bag, width) {
          var f :| f in init && Drawable(f, bag) && FromField(d, f, bag, width);
          assert f in fs;
        } else {
          assert d in FieldDraw(p, last, bag, width);
          assert FromField(d, last, bag, width);
        }
      }
    }
  }

  lemma {:induction false} PageTextDrawsComplete(p: nat, fs: seq<Field>, bag: ValueBag, width: WidthFn, f: Field)
    requires f in fs && Drawable(f, bag)
    ensures FieldDraw(p, f, bag, width)[0] in PageTextDraws(p, fs, bag, width)
  {
    var init, last := fs[..|fs| - 1], fs[|fs| - 1];
    if f == last {
      assert FieldDraw(p, f, bag, width)[0] in FieldDraw(p, last, bag, width);
    } else {
      assert f in init by {
        var i :| 0 <= i < |fs| && fs[i] == f;
        assert i < |fs| - 1;
        assert init[i] == f;
      }
      PageTextDrawsComplete(p, init, bag, width, f);
    }
  }

  lemma {:induction false} PageMarksSound(p: nat, boxes: seq<Checkbox>, flags: set<string>)
    ensures forall d :: d in PageMarks(p, boxes, flags) ==>
      d.Mark? && d.page == p && exists b :: b in boxes && FromBox(d, b, flags)
  {
    if boxes != [] {
      var init, last := boxes[..|boxes| - 1], boxes[|boxes| - 1];
      PageMarksSound(p, init, flags);
      forall d | d in PageMarks(p, boxes, flags)
        ensures d.Mark? && d.page == p && exists b :: b in boxes && FromBox(d, b, flags)
      {
        if d in PageMarks(p, init, flags) {
          var b :| b in init && FromBox(d, b, flags);
          assert b in boxes;
        } else {
          assert FromBox(d, last, flags);
        }
      }
    }
  }

  lemma {:induction false} PageMarksComplete(p: nat, boxes: seq<Checkbox>, flags: set<string>, b: Checkbox)
    requires b in boxes && b.flag in flags
    ensures Mark(p, b.flag, b.x, b.y) in PageMarks(p, boxes, flags)
  {
    var init, last := boxes[..|boxes| - 1], boxes[|boxes| - 1];
    if b != last {
      assert b in init by {
        var i :| 0 <= i < |boxes| && boxes[i] == b;
        assert i < |boxes| - 1;
        assert init[i] == b;
      }
      PageMarksComplete(p, init, flags, b);
    }
  }

  /* ---- The text and checkbox pass ---- */

  /** What a draw of the text pass is: the text of a drawable entry of its
      page, with the bag's value, or the mark of a set checkbox of its page. */
  predicate TextPassEntry(d: Draw, pages: seq<PageFields>, boxes: seq<PageBoxes>,
                          bag: ValueBag, flags: set<string>, width: WidthFn) {
    !d.Image?
    && (d.Text? ==> exists f :: f in FieldsOn(pages, d.page) && Drawable(f, bag) && FromField(d, f, bag, width))
    && (d.Mark? ==> exists b :: b in BoxesOn(boxes, d.page) && FromBox(d, b, flags))
  }

  lemma PageDrawsSound(p: nat, pages: seq<PageFields>, boxes: seq<PageBoxes>,
                       bag: ValueBag, flags: set<string>, width: WidthFn, d: Draw)
    requires d in PageDraws(p, FieldsOn(pages, p), BoxesOn(boxes, p), bag, flags, width)
    ensures d.page == p && TextPassEntry(d, pages, boxes, bag, flags, width)
  {
    PageTextDrawsSound(p, FieldsOn(pages, p), bag, width);
    PageMarksSound(p, BoxesOn(boxes, p), flags);
  }

  /** The draws of pages `0 .. n - 1` in order, page `p` drawing `f(p)`. */
  function Concat(n: nat, f: nat -> seq<Draw>): seq<Draw> {
    if n == 0 then [] else Concat(n - 1, f) + f(n - 1)
  }

  lemma {:induction false} PagesOf(n: nat, f: nat -> seq<Draw>, d: Draw) returns (p: nat)
    requires d in Concat(n, f)
    ensures p < n && d in f(p)
  {
    if d in Concat(n - 1, f) {
      p := PagesOf(n - 1, f, d);
    } else {
      p := n - 1;
    }
  }

  lemma {:induction false} InPages(n: nat, f: nat -> seq<Draw>, p: nat, d: Draw)
    requires p < n && d in f(p)
    ensures d in Concat(n, f)
  {
    if p < n - 1 {
      InPages(n - 1, f, p, d);
    }
  }

  /** The text pass, page by page. */
  lemma {:induction false} TextPassPages(n: nat, pages: seq<PageFields>, boxes: seq<PageBoxes>,
                                         bag: ValueBag, flags: set<string>, width: WidthFn)
    ensures TextPass(n, pages, boxes, bag, flags, width)
      == Concat(n, (p: nat) => PageDraws(p, FieldsOn(pages, p), BoxesOn(boxes, p), bag, flags, width))
  {
    var f := (p: nat) => PageDraws(p, FieldsOn(pages, p), BoxesOn(boxes, p), bag, flags, width);
    if n > 0 {
      TextPassPages(n - 1, pages, boxes, bag, flags, width);
      var here := PageDraws(n - 1, FieldsOn(pages, n - 1), BoxesOn(boxes, n - 1), bag, flags, width);
      assert f(n - 1) == here;
      assert Concat(n, f) == Concat(n - 1, f) + here;
      assert TextPass(n, pages, boxes, bag, flags, width) == TextPass(n - 1, pages, boxes, bag, flags, width) + here;
    }
  }

  /** The page of the text pass a draw comes from. */
  lemma TextPassPage(n: nat, pages: seq<PageFields>, boxes: seq<PageBoxes>,
                     bag: ValueBag, flags: set<string>, width: WidthFn, d: Draw)
    returns (p: nat)
    requires d in TextPass(n, pages, boxes, bag, flags, width)
    ensures p < n && d in PageDraws(p, FieldsOn(pages, p), BoxesOn(boxes, p), bag, flags, width)
  {
    TextPassPages(n, pages, boxes, bag, flags, width);
    p := PagesOf(n, (q: nat) => PageDraws(q, FieldsOn(pages, q), BoxesOn(boxes, q), bag, flags, width), d);
  }

  /** Every draw of the text pass over `n` pages is on one of them and is a
      text or a mark its page's tables account for. */
  lemma TextPassSound(n: nat, pages: seq<PageFields>, boxes: seq<PageBoxes>,
                      bag: ValueBag, flags: set<string>, width: WidthFn, d: Draw)
    requires d in TextPass(n, pages, boxes, bag, flags, width)
    ensures d.page < n && TextPassEntry(d, pages, boxes, bag, flags, width)
  {
    var p := TextPassPage(n, pages, boxes, bag, flags, width, d);
    PageDrawsSound(p, pages, boxes, bag, flags, width, d);
  }

  /** Whatever a page draws is in the pass over any prefix of pages reaching it. */
  lemma InTextPass(n: nat, pages: seq<PageFields>, boxes: seq<PageBoxes>,
                   bag: ValueBag, flags: set<string>, width: WidthFn, idx: nat, d: Draw)
    requires idx < n
    requires d in PageDraws(idx, FieldsOn(pages, idx), BoxesOn(boxes, idx), bag, flags, width)
    ensures d in TextPass(n, pages, boxes, bag, flags, width)
  {
    TextPassPages(n, pages, boxes, bag, flags, width);
    InPages(n, (q: nat) => PageDraws(q, FieldsOn(pages, q), BoxesOn(boxes, q), bag, flags, width), idx, d);
  }

  /** Every drawable entry of a page within the document is drawn. */
  lemma TextPassComplete(n: nat, pages: seq<PageFields>, boxes: seq<PageBoxes>,
                         bag: ValueBag, flags: set<string>, width: WidthFn, idx: nat, f: Field)
    requires idx < n && f in FieldsOn(pages, idx) && Drawable(f, bag)
    ensures FieldDraw(idx, f, bag, width)[0] in TextPass(n, pages, boxes, bag, flags, width)
  {
    var fs := FieldsOn(pages, idx);
    var d := FieldDraw(idx, f, bag, width)[0];
    PageTextDrawsComplete(idx, fs, bag, width, f);
    assert d in PageDraws(idx, fs, BoxesOn(boxes, idx), bag, flags, width);
    InTextPass(n, pages, boxes, bag, flags, width, idx, d);
  }

  /** Every set checkbox of a page within the document gets its mark. */
  lemma MarksComplete(n: nat, pages: seq<PageFields>, boxes: seq<PageBoxes>,
                      bag: ValueBag, flags: set<string>, width: WidthFn, idx: nat, b: Checkbox)
    requires idx < n && b in BoxesOn(boxes, idx) && b.flag in flags
    ensures Mark(idx, b.flag, b.x, b.y) in TextPass(n, pages, boxes, bag, flags, width)
  {
    var bs := BoxesOn(boxes, idx);
    PageMarksComplete(idx, bs, flags, b);
    assert Mark(idx, b.flag, b.x, b.y) in PageDraws(idx, FieldsOn(pages, idx), bs, bag, flags, width);
    InTextPass(n, pages, boxes, bag, flags, width, idx, Mark(idx, b.flag, b.x, b.y));
  }

  /* ---- The signature pass ---- */

  /** The signature pass draws only images, on pages within the document. */
  lemma {:induction false} SigPassImages(ps: seq<PageFields>, pageCount: nat, guestSig: Option<Signature>,
                                         guardianSig: Option<Signature>, minor: bool)
    ensures forall d :: d in SigPass(ps, pageCount, guestSig, guardianSig, minor) ==>
      d.Image? && d.page < pageCount && (d.signer == Guardian ==> minor)
  {
    if ps != [] {
      SigPassImages(ps[..|ps| - 1], pageCount, guestSig, guardianSig, minor);
    }
  }

  /** A page without signature boxes gets no signature. */
  lemma NoBoxesNoSignatures(i: nat, fields: seq<Field>, guestSig: Option<Signature>,
                            guardianSig: Option<Signature>, minor: bool)
    requires forall f :: f in fields ==> !IsSignatureKey(f.key)
    ensures PageSignatures(i, fields, guestSig, guardianSig, minor) == []
  {
    SignatureKeyNames(SigGuest);
    SignatureKeyNames(SigGuardian);
  }

  /** A table without signature boxes gets no signatures. */
  lemma {:induction false} SigPassWithoutBoxes(ps: seq<PageFields>, pageCount: nat, guestSig: Option<Signature>,
                                               guardianSig: Option<Signature>, minor: bool)
    requires forall j, f :: 0 <= j < |ps| && f in ps[j].fields ==> !IsSignatureKey(f.key)
    ensures SigPass(ps, pageCount, guestSig, guardianSig, minor) == []
  {
    if ps != [] {
      SigPassWithoutBoxes(ps[..|ps| - 1], pageCount, guestSig, guardianSig, minor);
      var last := ps[|ps| - 1];
      NoBoxesNoSignatures(last.index, last.fields, guestSig, guardianSig, minor);
    }
  }

  /** The images for a document whose page 0 has the guest's signature box
      at (gx, gy) and the guardian's at (hx, hy): each signer's image when
      its bytes are given and embed, the guardian's only for a minor. */
  function BoxedSignatures(pageCount: nat, guestSig: Option<Signature>, guardianSig: Option<Signature>,
                           minor: bool, gx: int, gy: int, hx: int, hy: int): seq<Draw> {
    if pageCount == 0 then []
    else
      (if guestSig.Some? && guestSig.value.embeddable then [Image(0, Guest, gx, gy)] else [])
      + (if minor && guardianSig.Some? && guardianSig.value.embeddable then [Image(0, Guardian, hx, hy)] else [])
  }

  /** The signatures a template gets: on the RDC form's page 0, the guest's
      signature at (264, 87) and, for a minor, the guardian's at (264, 54);
      nothing on any other form. */
  function ExpectedSignatures(role: Role, pageCount: nat, guestSig: Option<Signature>,
                              guardianSig: Option<Signature>, minor: bool): seq<Draw> {
    if role != Rdc then [] else BoxedSignatures(pageCount, guestSig, guardianSig, minor, 264, 87, 264, 54)
  }

  lemma {:induction false} SigPassOfOnePage(p: PageFields, pageCount: nat, guestSig: Option<Signature>,
                                            guardianSig: Option<Signature>, minor: bool)
    ensures SigPass([p], pageCount, guestSig, guardianSig, minor)
      == if p.index < pageCount then PageSignatures(p.index, p.fields, guestSig, guardianSig, minor) else []
  {
    assert [p][..0] == [];
  }

  /** A signature box with both coordinates takes the image at its corner
      exactly when the bytes embed. */
  lemma SignatureInBox(page: nat, signer: Signer, sig: Signature, x: int, y: int, w: nat, h: nat)
    ensures SignatureFor(page, signer, sig, Some(Box(x, y, w, h)))
      == if sig.embeddable then [Image(page, signer, x, y)] else []
  {
  }

  /** A single page listed as page 0 with both signature boxes. */
  lemma SigPassOfSignaturePage(p: PageFields, pageCount: nat, guestSig: Option<Signature>,
                               guardianSig: Option<Signature>, minor: bool, gx: int, gy: int, hx: int, hy: int)
    requires p.index == 0
    requires exists w, h :: FindField(p.fields, SigGuest) == Some(Box(gx, gy, w, h))
    requires exists w, h :: FindField(p.fields, SigGuardian) == Some(Box(hx, hy, w, h))
    ensures SigPass([p], pageCount, guestSig, guardianSig, minor)
      == BoxedSignatures(pageCount, guestSig, guardianSig, minor, gx, gy, hx, hy)
  {
    SigPassOfOnePage(p, pageCount, guestSig, guardianSig, minor);
    var gw, gh :| FindField(p.fields, SigGuest) == Some(Box(gx, gy, gw, gh));
    var hw, hh :| FindField(p.fields, SigGuardian) == Some(Box(hx, hy, hw, hh));
    if guestSig.Some? {
      SignatureInBox(0, Guest, guestSig.value, gx, gy, gw, gh);
    }
    if guardianSig.Some? {
      SignatureInBox(0, Guardian, guardianSig.value, hx, hy, hw, hh);
    }
  }

  lemma SigPassOfRdc(pageCount: nat, guestSig: Option<Signature>, guardianSig: Option<Signature>, minor: bool)
    ensures SigPass(Pages(Rdc), pageCount, guestSig, guardianSig, minor)
      == ExpectedSignatures(Rdc, pageCount, guestSig, guardianSig, minor)
  {
    RdcGuestBox();
    RdcGuardianBox();
    SigPassOfSignaturePage(RdcPages[0], pageCount, guestSig, guardianSig, minor, 264, 87, 264, 54);
    assert Pages(Rdc) == [RdcPages[0]];
  }

  lemma SigPassOfRole(role: Role, pageCount: nat, guestSig: Option<Signature>,
                      guardianSig: Option<Signature>, minor: bool)
    ensures SigPass(Pages(role), pageCount, guestSig, guardianSig, minor)
      == ExpectedSignatures(role, pageCount, guestSig, guardianSig, minor)
  {
    if role == Rdc {
      SigPassOfRdc(pageCount, guestSig, guardianSig, minor);
    } else {
      forall j, f | 0 <= j < |Pages(role)| && f in Pages(role)[j].fields
        ensures !IsSignatureKey(f.key)
      {
        if IsSignatureKey(f.key) {
          assert Registered(role, Pages(role)[j].index, f);
          SignatureKeysOnlyOnRdc(role, Pages(role)[j].index, f);
        }
      }
      SigPassWithoutBoxes(Pages(role), pageCount, guestSig, guardianSig, minor);
    }
  }

  /* ---- The whole overlay ---- */

  /** Every draw of the overlay is on a page of the document and is a text
      of a drawable entry of its page, the mark of a set checkbox of its
      page, or an image of the signature pass, which runs only when a
      signature is supplied. */
  lemma OverlayDrawSound(pages: seq<PageFields>, boxes: seq<PageBoxes>, pageCount: nat, bag: ValueBag,
                         flags: set<string>, guestSig: Option<Signature>, guardianSig: Option<Signature>,
                         minor: bool, width: WidthFn, d: Draw)
    requires d in OverlayDraws(pages, boxes, pageCount, bag, flags, guestSig, guardianSig, minor, width)
    ensures d.page < pageCount
    ensures d.Text? ==> exists f :: f in FieldsOn(pages, d.page) && Drawable(f, bag) && FromField(d, f, bag, width)
    ensures d.Mark? ==> exists b :: b in BoxesOn(boxes, d.page) && FromBox(d, b, flags)
    ensures d.Image? ==> (guestSig.Some? || guardianSig.Some?) && d in SigPass(pages, pageCount, guestSig, guardianSig, minor)
  {
    var tp := TextPass(pageCount, pages, boxes, bag, flags, width);
    var sp := if guestSig.Some? || guardianSig.Some? then SigPass(pages, pageCount, guestSig, guardianSig, minor) else [];
    assert OverlayDraws(pages, boxes, pageCount, bag, flags, guestSig, guardianSig, minor, width) == tp + sp;
    if d in tp {
      TextPassSound(pageCount, pages, boxes, bag, flags, width, d);
    } else {
      SigPassImages(pages, pageCount, guestSig, guardianSig, minor);
    }
  }

  /** On a page with distinct keys an entry is known by its key. */
  lemma SameKeySameEntry(fields: seq<Field>, f: Field, g: Field)
    requires DistinctKeys(fields) && f in fields && g in fields && f.key == g.key
    ensures f == g
  {
    var a :| 0 <= a < |fields| && fields[a] == f;
    var b :| 0 <= b < |fields| && fields[b] == g;
  }

  lemma FieldsOnDistinct(pages: seq<PageFields>, idx: nat)
    requires WellFormedPages(pages)
    ensures DistinctKeys(FieldsOn(pages, idx))
  {
    FieldsOnListed(pages, idx);
  }

  /** An entry of a page within the document is drawn exactly when it is
      drawable, and whatever is drawn under its key on its page is its value
      at its position and a size chosen for it. */
  lemma TextDrawnIff(pages: seq<PageFields>, boxes: seq<PageBoxes>, pageCount: nat, bag: ValueBag,
                     flags: set<string>, guestSig: Option<Signature>, guardianSig: Option<Signature>,
                     minor: bool, width: WidthFn, idx: nat, f: Field)
    requires WellFormedPages(pages) && idx < pageCount && f in FieldsOn(pages, idx)
    ensures Drawable(f, bag) <==>
      exists d :: d in OverlayDraws(pages, boxes, pageCount, bag, flags, guestSig, guardianSig, minor, width)
        && d.Text? && d.page == idx && d.key == f.key
    ensures forall d ::
      (d in OverlayDraws(pages, boxes, pageCount, bag, flags, guestSig, guardianSig, minor, width)
       && d.Text? && d.page == idx && d.key == f.key) ==> FromField(d, f, bag, width)
  {
    var all := OverlayDraws(pages, boxes, pageCount, bag, flags, guestSig, guardianSig, minor, width);
    var tp := TextPass(pageCount, pages, boxes, bag, flags, width);
    assert all == tp + (if guestSig.Some? || guardianSig.Some? then SigPass(pages, pageCount, guestSig, guardianSig, minor) else []);
    if Drawable(f, bag) {
      TextPassComplete(pageCount, pages, boxes, bag, flags, width, idx, f);
      var d := FieldDraw(idx, f, bag, width)[0];
      assert d in all;
    }
    FieldsOnDistinct(pages, idx);
    forall d | d in all && d.Text? && d.page == idx && d.key == f.key
      ensures FromField(d, f, bag, width) && Drawable(f, bag)
    {
      OverlayDrawSound(pages, boxes, pageCount, bag, flags, guestSig, guardianSig, minor, width, d);
      var g :| g in FieldsOn(pages, idx) && Drawable(g, bag) && FromField(d, g, bag, width);
      SameKeySameEntry(FieldsOn(pages, idx), f, g);
    }
  }

  /** The six keys of the table the value bag has a value for. */
  predicate BagKey(k: Key) {
    k.FirstName? || k.LastName? || k.FullName? || k.Date? || k.ParentName? || k.ParentDate?
  }

  lemma BagKeys(bag: ValueBag, k: Key)
    ensures BagValue(bag, k) != "" ==> BagKey(k)
  {
  }

  /** Every text drawn is a non-empty value under one of the six keys the
      bag shares with the table; the other keys of the table are never drawn. */
  lemma DrawnTexts(pages: seq<PageFields>, boxes: seq<PageBoxes>, pageCount: nat, bag: ValueBag,
                   flags: set<string>, guestSig: Option<Signature>, guardianSig: Option<Signature>,
                   minor: bool, width: WidthFn)
    ensures forall d ::
      (d in OverlayDraws(pages, boxes, pageCount, bag, flags, guestSig, guardianSig, minor, width) && d.Text?)
      ==> d.text != "" && BagKey(d.key)
  {
    forall d | d in OverlayDraws(pages, boxes, pageCount, bag, flags, guestSig, guardianSig, minor, width) && d.Text?
      ensures d.text != "" && BagKey(d.key)
    {
      OverlayDrawSound(pages, boxes, pageCount, bag, flags, guestSig, guardianSig, minor, width, d);
      var f :| f in FieldsOn(pages, d.page) && Drawable(f, bag) && FromField(d, f, bag, width);
      BagKeys(bag, f.key);
    }
  }
}
