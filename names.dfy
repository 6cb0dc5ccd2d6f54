/** `buildNameParts` of backend/pdfHandler.js: the display forms of a guest's
    name, from the split first/middle/last fields or, failing those, from the
    legacy single `name` field. */
module Names {
  import opened Strings
  import opened Submissions

  datatype NameParts = NameParts(
    firstName: string,
    middleName: string,
    lastName: string,
    fullName: string,
    middleInitial: string,
    initials: string)

  const NoName := NameParts("", "", "", "", "", "")

  /** `middle ? middle[0].toUpperCase() + '.' : ''` */
  function MiddleInitial(middle: string): string {
    if middle == "" then "" else [ToUpper(middle[0]), '.']
  }

  /** The parts of a name from its first, middle and last part. */
  function Compose(first: string, middle: string, last: string): NameParts {
    NameParts(first, middle, last,
      Join(NonEmpty([first, middle, last]), " "),
      MiddleInitial(middle),
      FirstChar(first) + FirstChar(middle) + FirstChar(last))
  }

  /** Whether the split name fields are used (`if (first || last)`). */
  predicate UsesSplitFields(data: Submission) {
    Trim(data.firstName) != "" || Trim(data.lastName) != ""
  }

  /** What `buildNameParts(data)` returns. */
  function SplitName(data: Submission): NameParts {
    if UsesSplitFields(data) then
      Compose(Trim(data.firstName), Trim(data.middleName), Trim(data.lastName))
    else
      LegacyParts(Trim(data.name))
  }

  /** The parts of the trimmed legacy name `legacy`: one token is all first
      name; of more tokens the last is the last name, the first the first name
      and the others the middle name. */
  function LegacyParts(legacy: string): NameParts
    requires legacy == "" || !IsSpace(legacy[0])
  {
    if legacy == "" then NoName
    else
      TrimmedHasWords(legacy);
      var ws := Words(legacy);
      if |ws| == 1 then NameParts(ws[0], "", "", legacy, "", FirstChar(ws[0]))
      else ComposeOfTokens(ws)
  }

  function ComposeOfTokens(ws: seq<string>): NameParts
    requires |ws| >= 2
  {
    Compose(ws[0], Join(ws[1..|ws| - 1], " "), ws[|ws| - 1])
  }

  /** `buildNameParts`, as the source writes it: the legacy name is split into
      an array from which `pop` takes the last name and `shift` the first. */
  method BuildNameParts(data: Submission) returns (r: NameParts)
    ensures r == SplitName(data)
  {
    var first := Trim(data.firstName);
    var middle := Trim(data.middleName);
    var last := Trim(data.lastName);
    if first != "" || last != "" {
      return Compose(first, middle, last);
    }
    var legacy := Trim(data.name);
    if legacy == "" {
      return NoName;
    }
    var parts := Words(legacy);
    if |parts| == 1 {
      return NameParts(parts[0], "", "", legacy, "", FirstChar(parts[0]));
    }
    var lastName := parts[|parts| - 1];
    parts := parts[..|parts| - 1];          // parts.pop()
    var firstName := parts[0];
    parts := parts[1..];                    // parts.shift()
    var middleName := Join(parts, " ");
    assert parts == Words(legacy)[1..|Words(legacy)| - 1];
    r := Compose(firstName, middleName, lastName);
    assert r == ComposeOfTokens(Words(legacy));
  }

  /* ---- Properties ---- */

  /** `NonEmpty` of three parts, spelled out. */
  lemma NonEmptyOfThree(a: string, b: string, c: string)
    ensures NonEmpty([a, b, c]) ==
      (if a != "" then [a] else []) + (if b != "" then [b] else []) + (if c != "" then [c] else [])
  {
    assert [a, b, c][1..] == [b, c];
    assert [b, c][1..] == [c];
    assert [c][1..] == [];
    assert NonEmpty([c]) == if c != "" then [c] else [];
    assert NonEmpty([b, c]) == (if b != "" then [b] else []) + NonEmpty([c]);
    assert NonEmpty([a, b, c]) == (if a != "" then [a] else []) + NonEmpty([b, c]);
  }

  /** The initials are the first characters of the parts that are present,
      in order; only the middle initial is upper-cased. */
  lemma InitialsOfPresentParts(first: string, middle: string, last: string)
    ensures var r := Compose(first, middle, last); var present := NonEmpty([first, middle, last]);
      |r.initials| == |present|
      && (forall i :: 0 <= i < |present| ==> r.initials[i] == present[i][0])
      && (r.middleInitial == "" <==> middle == "")
      && (middle != "" ==> r.middleInitial == [ToUpper(middle[0]), '.'])
  {
    NonEmptyOfThree(first, middle, last);
  }

  /** The split fields: the parts are the trimmed fields, the full name joins the
      non-empty ones with single spaces. */
  lemma SplitFieldsPath(data: Submission)
    requires UsesSplitFields(data)
    ensures var r := SplitName(data);
      r.firstName == Trim(data.firstName) && r.middleName == Trim(data.middleName)
      && r.lastName == Trim(data.lastName)
      && r.fullName == Join(NonEmpty([r.firstName, r.middleName, r.lastName]), " ")
      && r.fullName != ""
  {
    var r := SplitName(data);
    NonEmptyOfThree(r.firstName, r.middleName, r.lastName);
    JoinNonEmptyParts(NonEmpty([r.firstName, r.middleName, r.lastName]));
  }

  lemma JoinNonEmptyParts(ps: seq<string>)
    requires |ps| >= 1 && forall i :: 0 <= i < |ps| ==> ps[i] != ""
    ensures Join(ps, " ") != ""
  {
  }

  /** An empty legacy name and empty split fields give empty parts. */
  lemma EmptyName(data: Submission)
    requires !UsesSplitFields(data) && Trim(data.name) == ""
    ensures SplitName(data) == NoName
  {
  }

  /** A legacy name of one token is all first name. */
  lemma LegacySingleToken(data: Submission)
    requires !UsesSplitFields(data) && |Words(Trim(data.name))| == 1
    ensures var r := SplitName(data);
      r.firstName == Trim(data.name) && r.middleName == "" && r.lastName == ""
      && r.fullName == r.firstName && r.middleInitial == ""
      && r.initials == FirstChar(r.firstName)
  {
    var t := Trim(data.name);
    assert t != "";
    SingleWordIsWhole(t);
  }

  /** A legacy name of two or more tokens: first token, last token, and the
      tokens in between joined by single spaces. */
  lemma LegacyManyTokens(data: Submission)
    requires !UsesSplitFields(data)
    requires |Words(Trim(data.name))| >= 2
    ensures var r := SplitName(data); var ws := Words(Trim(data.name));
      r.firstName == ws[0] && r.lastName == ws[|ws| - 1]
      && r.middleName == Join(ws[1..|ws| - 1], " ")
      && r.fullName == Join(ws, " ")
  {
    var t := Trim(data.name);
    assert t != "";
    assert SplitName(data) == ComposeOfTokens(Words(t));
    WordsAreWords(t);
    ComposeTokens(Words(t));
  }

  /** Composing from the first token, the middle tokens and the last token
      gives all the tokens joined by single spaces. */
  lemma ComposeTokens(ws: seq<string>)
    requires |ws| >= 2 && forall i :: 0 <= i < |ws| ==> ws[i] != ""
    ensures ComposeOfTokens(ws).fullName == Join(ws, " ")
  {
    var mj := Join(ws[1..|ws| - 1], " ");
    assert ComposeOfTokens(ws).fullName == Join(NonEmpty([ws[0], mj, ws[|ws| - 1]]), " ");
    if |ws| == 2 {
      JoinTwo(ws);
    } else {
      JoinThreeOrMore(ws);
      NonEmptyOfThree(ws[0], mj, ws[|ws| - 1]);
    }
  }

  lemma JoinTwo(ws: seq<string>)
    requires |ws| == 2 && ws[0] != "" && ws[1] != ""
    ensures Join(ws[1..1], " ") == ""
    ensures Join(NonEmpty([ws[0], "", ws[1]]), " ") == Join(ws, " ")
  {
    NonEmptyOfThree(ws[0], "", ws[1]);
    assert NonEmpty([ws[0], "", ws[1]]) == ws;
  }

  lemma JoinThreeOrMore(ws: seq<string>)
    requires |ws| >= 3 && forall i :: 0 <= i < |ws| ==> ws[i] != ""
    ensures var mid := Join(ws[1..|ws| - 1], " ");
      mid != "" && Join([ws[0], mid, ws[|ws| - 1]], " ") == Join(ws, " ")
  {
    JoinNonEmptyParts(ws[1..|ws| - 1]);
    var mj := Join(ws[1..|ws| - 1], " ");
    JoinTailSnoc(ws);
    JoinOfThree(ws[0], mj, ws[|ws| - 1], " ");
    JoinRegroup(ws, mj);
  }

  lemma JoinOfThree(a: string, b: string, c: string, sep: string)
    ensures Join([a, b, c], sep) == a + sep + (b + sep + c)
  {
    assert [a, b, c][1..] == [b, c];
    assert [b, c][1..] == [c];
    assert Join([c], sep) == c;
    assert Join([b, c], sep) == b + sep + c;
  }

  lemma JoinTailSnoc(ws: seq<string>)
    requires |ws| >= 3
    ensures Join(ws[1..], " ") == Join(ws[1..|ws| - 1], " ") + " " + ws[|ws| - 1]
  {
    JoinSnoc(ws[1..], " ");
    assert ws[1..][..|ws[1..]| - 1] == ws[1..|ws| - 1];
  }

  lemma JoinRegroup(ws: seq<string>, mj: string)
    requires |ws| >= 3
    requires Join(ws[1..], " ") == mj + " " + ws[|ws| - 1]
    requires Join([ws[0], mj, ws[|ws| - 1]], " ") == ws[0] + " " + (mj + " " + ws[|ws| - 1])
    ensures Join([ws[0], mj, ws[|ws| - 1]], " ") == Join(ws, " ")
  {
    assert Join(ws, " ") == ws[0] + " " + Join(ws[1..], " ");
  }

  /** Joining with one more element at the end. */
  lemma {:induction false} JoinSnoc(xs: seq<string>, sep: string)
    requires |xs| >= 2
    ensures Join(xs, sep) == Join(xs[..|xs| - 1], sep) + sep + xs[|xs| - 1]
  {
    if |xs| > 2 {
      JoinSnoc(xs[1..], sep);
      assert xs[1..][..|xs[1..]| - 1] == xs[..|xs| - 1][1..];
    }
  }

  /** The legacy full name is the name's tokens joined by single spaces, so
      splitting it again gives the same tokens. */
  lemma LegacyFullNameRoundTrip(data: Submission)
    requires !UsesSplitFields(data) && Trim(data.name) != ""
    ensures var ws := Words(Trim(data.name));
      SplitName(data).fullName == Join(ws, " ") && Words(SplitName(data).fullName) == ws
  {
    var t := Trim(data.name);
    var ws := Words(t);
    assert |ws| >= 1 by { TrimmedHasWords(t); }
    assert SplitName(data).fullName == Join(ws, " ") by {
      if |ws| == 1 {
        LegacySingleToken(data);
        SingleWordIsWhole(t);
      } else {
        LegacyManyTokens(data);
      }
    }
    WordsAreWords(t);
    WordsOfJoin(ws);
  }
}
