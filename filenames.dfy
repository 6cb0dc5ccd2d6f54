/** The output filename of `buildPacketBuffers`: the guest's name with every
    character outside `[A-Za-z0-9_\- ]` removed and each run of white space
    turned into one `_`, then the packet label and the date as `yyyyMMdd`. */
module FileNames {
  import opened Strings
  import opened Dates

  /** `\w`: an ASCII letter, digit or underscore. */
  predicate WordChar(c: char) {
    ('A' <= c <= 'Z') || ('a' <= c <= 'z') || ('0' <= c <= '9') || c == '_'
  }

  /** A character `[\w\- ]` keeps. */
  predicate Kept(c: char) {
    WordChar(c) || c == '-' || c == ' '
  }

  /** A character a sanitised name may hold: a kept one that is not white space. */
  predicate SafeChar(c: char) {
    WordChar(c) || c == '-'
  }

  predicate AllSafe(s: string) {
    forall i :: 0 <= i < |s| ==> SafeChar(s[i])
  }

  predicate AllKept(s: string) {
    forall i :: 0 <= i < |s| ==> Kept(s[i])
  }

  /** `s.replace(/[^\w\- ]+/g, '')` */
  function DropUnsafe(s: string): (r: string)
    ensures |r| <= |s|
  {
    if s == [] then []
    else (if Kept(s[0]) then [s[0]] else []) + DropUnsafe(s[1..])
  }

  /** `s.replace(/\s+/g, '_')` */
  function UnderscoreSpaces(s: string): (r: string)
    decreases |s|
  {
    if s == [] then []
    else if IsSpace(s[0]) then "_" + UnderscoreSpaces(TrimStart(s[1..]))
    else [s[0]] + UnderscoreSpaces(s[1..])
  }

  function Sanitize(s: string): string {
    UnderscoreSpaces(DropUnsafe(s))
  }

  /** The name part of the packet's filename, from `fullName || name || 'Guest'`. */
  function SafeName(fullName: string, name: string): string {
    Sanitize(if fullName != "" then fullName else if name != "" then name else "Guest")
  }

  /** `${safeName}_${centerLabel}_${format(new Date(), 'yyyyMMdd')}.pdf` */
  function PacketFilename(safeName: string, centerLabel: string, now: Today): string {
    safeName + "_" + centerLabel + "_" + YyyyMMdd(now) + ".pdf"
  }

  /* ---- Properties ---- */

  /** What the first replacement keeps: exactly the characters of the input
      in `[\w\- ]`, so a name made only of such characters is kept whole. */
  lemma {:induction false} DropUnsafeKeeps(s: string)
    ensures AllKept(DropUnsafe(s))
    ensures forall c :: c in DropUnsafe(s) <==> c in s && Kept(c)
    ensures AllKept(s) ==> DropUnsafe(s) == s
  {
    if s != [] {
      DropUnsafeKeeps(s[1..]);
      assert s == [s[0]] + s[1..];
    }
  }

  /** One character is kept exactly when it is in `[\w\- ]`. */
  lemma DropUnsafeChar(c: char)
    ensures DropUnsafe([c]) == if Kept(c) then [c] else []
  {
    assert [c][1..] == [];
  }

  /** The first replacement works character by character: it distributes
      over concatenation, so with `DropUnsafeChar` it is determined. */
  lemma {:induction false} DropUnsafeConcat(a: string, b: string)
    ensures DropUnsafe(a + b) == DropUnsafe(a) + DropUnsafe(b)
  {
    if a == [] {
      assert a + b == b;
    } else {
      var head := if Kept(a[0]) then [a[0]] else [];
      calc {
        DropUnsafe(a + b);
        { assert (a + b)[0] == a[0]; assert (a + b)[1..] == a[1..] + b; }
        head + DropUnsafe(a[1..] + b);
        { DropUnsafeConcat(a[1..], b); }
        head + (DropUnsafe(a[1..]) + DropUnsafe(b));
        (head + DropUnsafe(a[1..])) + DropUnsafe(b);
      }
    }
  }

  /** Dropping leading white space from a string that ends in another
      character touches nothing after it. */
  lemma {:induction false} TrimStartConcat(s: string, y: string)
    requires s != [] && !IsSpace(s[|s| - 1])
    ensures TrimStart(s + y) == TrimStart(s) + y
  {
    if IsSpace(s[0]) {
      assert (s + y)[1..] == s[1..] + y;
      TrimStartConcat(s[1..], y);
    }
  }

  /** A run of white space followed by a string that does not start with
      white space is trimmed away whole. */
  lemma {:induction false} TrimStartOfSpaces(w: string, b: string)
    requires forall k :: 0 <= k < |w| ==> IsSpace(w[k])
    requires b == [] || !IsSpace(b[0])
    ensures TrimStart(w + b) == b
  {
    if w != [] {
      assert (w + b)[1..] == w[1..] + b;
      TrimStartOfSpaces(w[1..], b);
    }
  }

  /** The second replacement works run by run: a string that ends in a
      character other than white space is replaced on its own. */
  lemma {:induction false} UnderscoreSpacesConcat(a: string, b: string)
    requires a == [] || !IsSpace(a[|a| - 1])
    ensures UnderscoreSpaces(a + b) == UnderscoreSpaces(a) + UnderscoreSpaces(b)
    decreases |a|
  {
    if a == [] {
      assert a + b == b;
    } else {
      if IsSpace(a[0]) {
        var t := TrimStart(a[1..]);
        TrimStartKeepsLast(a[1..]);
        TrimStartDrops(a[1..]);
        assert t[|t| - 1] == a[|a| - 1];
        UnderscoreSpacesConcat(t, b);
        UnderscoreSpacesSpaceStep(a, b);
      } else {
        calc {
          UnderscoreSpaces(a + b);
          { assert (a + b)[0] == a[0]; assert (a + b)[1..] == a[1..] + b; }
          [a[0]] + UnderscoreSpaces(a[1..] + b);
          { UnderscoreSpacesConcat(a[1..], b); }
          [a[0]] + (UnderscoreSpaces(a[1..]) + UnderscoreSpaces(b));
          ([a[0]] + UnderscoreSpaces(a[1..])) + UnderscoreSpaces(b);
        }
      }
    }
  }

  /** The step of `UnderscoreSpacesConcat` for a string starting with white
      space: the run at its start is trimmed before the rest is replaced. */
  lemma UnderscoreSpacesSpaceStep(a: string, b: string)
    requires |a| >= 2 && IsSpace(a[0]) && !IsSpace(a[|a| - 1])
    requires UnderscoreSpaces(TrimStart(a[1..]) + b) == UnderscoreSpaces(TrimStart(a[1..])) + UnderscoreSpaces(b)
    ensures UnderscoreSpaces(a + b) == UnderscoreSpaces(a) + UnderscoreSpaces(b)
  {
    var t := TrimStart(a[1..]);
    LeadOfConcat(a, b);
    UnderscoreSpacesLead(a);
    Regroup(UnderscoreSpaces(a + b), UnderscoreSpaces(t + b), UnderscoreSpaces(t), UnderscoreSpaces(b), UnderscoreSpaces(a));
  }

  lemma Regroup(whole: string, tail: string, t: string, b: string, a: string)
    requires whole == "_" + tail && tail == t + b && a == "_" + t
    ensures whole == a + b
  {
  }

  /** The white space run at the start of `a` is replaced first, and nothing
      of `b` is trimmed with it. */
  lemma LeadOfConcat(a: string, b: string)
    requires |a| >= 2 && IsSpace(a[0]) && !IsSpace(a[|a| - 1])
    ensures UnderscoreSpaces(a + b) == "_" + UnderscoreSpaces(TrimStart(a[1..]) + b)
  {
    assert (a + b)[0] == a[0];
    UnderscoreSpacesLead(a + b);
    assert (a + b)[1..] == a[1..] + b;
    TrimStartConcat(a[1..], b);
  }

  lemma UnderscoreSpacesLead(x: string)
    requires x != [] && IsSpace(x[0])
    ensures UnderscoreSpaces(x) == "_" + UnderscoreSpaces(TrimStart(x[1..]))
  {
  }

  /** Each run of white space becomes one `_`: with `a` ending and `b`
      starting in another character (or empty), the run `w` between them is
      replaced by a single underscore. */
  lemma UnderscoreSpacesRun(a: string, w: string, b: string)
    requires a == [] || !IsSpace(a[|a| - 1])
    requires w != [] && forall k :: 0 <= k < |w| ==> IsSpace(w[k])
    requires b == [] || !IsSpace(b[0])
    ensures UnderscoreSpaces(a + w + b) == UnderscoreSpaces(a) + "_" + UnderscoreSpaces(b)
  {
    assert a + w + b == a + (w + b);
    UnderscoreSpacesConcat(a, w + b);
    UnderscoreSpacesOfRun(w, b);
    RegroupRun(UnderscoreSpaces(a + (w + b)), UnderscoreSpaces(a), UnderscoreSpaces(w + b), UnderscoreSpaces(b));
  }

  lemma RegroupRun(whole: string, a: string, run: string, b: string)
    requires whole == a + run && run == "_" + b
    ensures whole == a + "_" + b
  {
  }

  /** A leading run of white space becomes one `_`. */
  lemma UnderscoreSpacesOfRun(w: string, b: string)
    requires w != [] && forall k :: 0 <= k < |w| ==> IsSpace(w[k])
    requires b == [] || !IsSpace(b[0])
    ensures UnderscoreSpaces(w + b) == "_" + UnderscoreSpaces(b)
  {
    assert (w + b)[0] == w[0];
    assert (w + b)[1..] == w[1..] + b;
    TrimStartOfSpaces(w[1..], b);
  }

  /** Replacing white space runs leaves none, and turns kept characters into
      safe ones. */
  lemma {:induction false} UnderscoreSpacesSafe(s: string)
    requires AllKept(s)
    ensures AllSafe(UnderscoreSpaces(s))
    decreases |s|
  {
    if s != [] {
      if IsSpace(s[0]) {
        TrimStartKeepsKept(s[1..]);
        UnderscoreSpacesSafe(TrimStart(s[1..]));
      } else {
        assert SafeChar(s[0]);
        UnderscoreSpacesSafe(s[1..]);
      }
    }
  }

  lemma {:induction false} TrimStartKeepsKept(s: string)
    requires AllKept(s)
    ensures AllKept(TrimStart(s))
  {
    if s != [] && IsSpace(s[0]) {
      TrimStartKeepsKept(s[1..]);
    }
  }

  /** A string without white space is left as it is. */
  lemma {:induction false} UnderscoreSpacesOfWord(s: string)
    requires NoSpace(s)
    ensures UnderscoreSpaces(s) == s
  {
    if s != [] {
      assert !IsSpace(s[0]);
      UnderscoreSpacesOfWord(s[1..]);
    }
  }

  /** A sanitised name holds only letters, digits, `_` and `-`. */
  lemma SanitizeSafe(s: string)
    ensures AllSafe(Sanitize(s))
  {
    DropUnsafeKeeps(s);
    UnderscoreSpacesSafe(DropUnsafe(s));
  }

  /** A name is its own sanitised form exactly when it holds only letters,
      digits, `_` and `-`. */
  lemma SanitizeFixpoint(s: string)
    ensures Sanitize(s) == s <==> AllSafe(s)
  {
    SanitizeSafe(s);
    if AllSafe(s) {
      DropUnsafeKeeps(s);
      SafeHasNoSpace(s);
      UnderscoreSpacesOfWord(s);
    }
  }

  /** An accented letter is removed and the double space becomes one `_`. */
  lemma SanitizeExample()
    ensures Sanitize("J\U{e9}  R") == "J_R"
  {
    assert DropUnsafe("J\U{e9}  R") == "J  R";
  }

  /** Sanitising twice is sanitising once. */
  lemma SanitizeIdempotent(s: string)
    ensures Sanitize(Sanitize(s)) == Sanitize(s)
  {
    SanitizeSafe(s);
    SanitizeFixpoint(Sanitize(s));
  }

  lemma NoSpaceConcat(a: string, b: string)
    ensures NoSpace(a + b) <==> NoSpace(a) && NoSpace(b)
  {
    if NoSpace(a + b) {
      forall i | 0 <= i < |a| ensures !IsSpace(a[i]) {
        assert a[i] == (a + b)[i];
      }
      forall i | 0 <= i < |b| ensures !IsSpace(b[i]) {
        assert b[i] == (a + b)[|a| + i];
      }
    }
  }

  lemma DigitsHaveNoSpace(s: string)
    requires AllDigits(s)
    ensures NoSpace(s)
  {
  }

  lemma FiveParts(safe: string, centerLabel: string, date: string)
    requires NoSpace(safe) && NoSpace(date)
    ensures NoSpace(safe + "_" + centerLabel + "_" + date + ".pdf") <==> NoSpace(centerLabel)
  {
    var s1 := safe + "_";
    var s2 := s1 + centerLabel;
    var s3 := s2 + "_";
    var s4 := s3 + date;
    assert NoSpace("_") && NoSpace(".pdf");
    NoSpaceConcat(safe, "_");
    NoSpaceConcat(s1, centerLabel);
    NoSpaceConcat(s2, "_");
    NoSpaceConcat(s3, date);
    NoSpaceConcat(s4, ".pdf");
  }

  /** The filename has white space exactly when the label has: the name part
      is sanitised, the label is not. */
  lemma FilenameSpaces(fullName: string, name: string, centerLabel: string, now: Today)
    ensures NoSpace(PacketFilename(SafeName(fullName, name), centerLabel, now)) <==> NoSpace(centerLabel)
  {
    var safe := SafeName(fullName, name);
    SanitizeSafe(if fullName != "" then fullName else if name != "" then name else "Guest");
    SafeHasNoSpace(safe);
    DigitsHaveNoSpace(YyyyMMdd(now));
    FiveParts(safe, centerLabel, YyyyMMdd(now));
  }

  lemma SafeHasNoSpace(s: string)
    requires AllSafe(s)
    ensures NoSpace(s)
  {
  }

  /** The filename starts with the sanitised name and an underscore and ends
      in `.pdf`. */
  lemma FilenameShape(fullName: string, name: string, centerLabel: string, now: Today)
    ensures var f := PacketFilename(SafeName(fullName, name), centerLabel, now);
      var safe := SafeName(fullName, name);
      |f| >= |safe| + |centerLabel| + 14
      && f[..|safe| + 1] == safe + "_" && f[|f| - 4..] == ".pdf"
  {
  }
}
