/** backend/utils/fieldMap.js: the template file of each document role, the
    packet labels for the selected centers, and the document bundle per
    selection of centers. */
module FieldMap {

  /** The keys of `formFiles`. */
  datatype Role = Medical | Rdc | Waiver | Boat | Youth

  /** `formFiles[role]` */
  function FormFile(role: Role): string {
    match role
    case Medical => "TR-MEDICAL-DIVER_English-Metric.pdf"
    case Rdc => "TR-RDC-SCUBA_English-Metric.pdf"
    case Waiver => "TR-WAIVER_English-Metric.pdf"
    case Boat => "TR-WAIVER-BOAT_English-Metric.pdf"
    case Youth => "TR-WAIVER-Youth_English-Metric.pdf"
  }

  /** Different roles use different template files. */
  lemma FormFilesDistinct(a: Role, b: Role)
    ensures FormFile(a) == FormFile(b) <==> a == b
  {
    if a != b {
      assert |FormFile(a)| != |FormFile(b)|;
    }
  }

  /** The three documents signed once per center. */
  const BaseRoles: seq<Role> := [Medical, Waiver, Boat]

  /** `bundleForCenters(centers, isMinor)`: the base documents (twice for more
      than one center), then the RDC form once, then the youth waiver for a
      minor. */
  function BundleForCenters(centers: seq<string>, isMinor: bool): (r: seq<Role>)
    ensures |r| == (if |centers| > 1 then 7 else 4) + (if isMinor then 1 else 0)
    ensures r[..3] == BaseRoles
  {
    var perCenter := if |centers| > 1 then BaseRoles + BaseRoles else BaseRoles;
    var all := perCenter + [Rdc];
    if isMinor then all + [Youth] else all
  }

  /** `centerSuffixes(centers)`: one label for fewer than two centers (the
      center's name, else "Havelock"), otherwise always Havelock and Neil. */
  function CenterSuffixes(centers: seq<string>): (r: seq<string>)
    ensures |r| == if |centers| < 2 then 1 else 2
    ensures forall i :: 0 <= i < |r| ==> r[i] != ""
  {
    if |centers| < 2 then [if |centers| > 0 && centers[0] != "" then centers[0] else "Havelock"]
    else ["Havelock", "Neil"]
  }

  /* ---- Properties ---- */

  /** One center (or none): medical, waiver, boat, RDC, and the youth waiver
      exactly for a minor. */
  lemma BundleOneCenter(centers: seq<string>, isMinor: bool)
    requires |centers| <= 1
    ensures BundleForCenters(centers, isMinor) ==
      [Medical, Waiver, Boat, Rdc] + (if isMinor then [Youth] else [])
  {
  }

  /** Several centers: the base three twice, then RDC, then the youth waiver
      exactly for a minor. */
  lemma BundleSeveralCenters(centers: seq<string>, isMinor: bool)
    requires |centers| > 1
    ensures BundleForCenters(centers, isMinor) ==
      [Medical, Waiver, Boat, Medical, Waiver, Boat, Rdc] + (if isMinor then [Youth] else [])
  {
  }

  /** The RDC form is in every bundle exactly once; the youth waiver at most
      once, exactly for a minor, and only as the last document. */
  lemma BundleCounts(centers: seq<string>, isMinor: bool)
    ensures var r := BundleForCenters(centers, isMinor);
      multiset(r)[Rdc] == 1
      && multiset(r)[Youth] == (if isMinor then 1 else 0)
      && (forall i :: 0 <= i < |r| - 1 ==> r[i] != Youth)
      && (isMinor <==> r[|r| - 1] == Youth)
  {
    var perCenter := if |centers| > 1 then BaseRoles + BaseRoles else BaseRoles;
    assert multiset(perCenter)[Rdc] == 0 && multiset(perCenter)[Youth] == 0;
    assert Youth !in perCenter;
    var all := perCenter + [Rdc];
    assert multiset(all) == multiset(perCenter) + multiset{Rdc};
    if isMinor {
      assert multiset(all + [Youth]) == multiset(all) + multiset{Youth};
    }
  }

  /** With two or more centers the labels do not depend on the names, their
      order or their number. */
  lemma SuffixesIgnoreNames(a: seq<string>, b: seq<string>)
    requires |a| >= 2 && |b| >= 2
    ensures CenterSuffixes(a) == CenterSuffixes(b) == ["Havelock", "Neil"]
  {
  }

  /** With one center its name is the label, unless it is empty. */
  lemma SuffixOfOneCenter(centers: seq<string>)
    requires |centers| < 2
    ensures CenterSuffixes(centers)[0] ==
      if |centers| == 1 && centers[0] != "" then centers[0] else "Havelock"
  {
  }
}
