/** Properties of the packets `buildPacketBuffers` produces: the result is
    determined by its inputs, it fails exactly when a required template is
    missing, the labels are `centerSuffixes`, the RDC form and the youth
    waiver go to the first packet only, every document after the cover is
    its template filled (or copied when the overlay throws), and the cover
    and the filenames are as `makeCoverSheet` and the filename template say. */
module PacketFacts {
  import opened Wrappers
  import opened Strings
  import opened Dates
  import opened Submissions
  import opened FieldMap
  import opened Overlay
  import opened FileNames
  import opened Packets

  /* ---- The result is a function of the inputs ---- */

  lemma AppendedUnique(env: Env, data: Submission, files: seq<string>, ps1: seq<Part>, ps2: seq<Part>)
    requires AppendedParts(env, data, files, ps1) && AppendedParts(env, data, files, ps2)
    ensures ps1 == ps2
  {
    forall k | 0 <= k < |ps1| ensures ps1[k] == ps2[k] {
      var p1, p2 := ps1[k], ps2[k];
      assert files[k] in env.forms;
      assert p1 == FilledPart(env, data, files[k]) == p2;
    }
  }

  /** At most one packet fits a position and a label. */
  lemma PacketUnique(env: Env, data: Submission, i: nat, centerCount: nat, centerLabel: string, p1: Packet, p2: Packet)
    requires IsPacket(env, data, i, centerCount, centerLabel, p1)
    requires IsPacket(env, data, i, centerCount, centerLabel, p2)
    ensures p1 == p2
  {
    AppendedUnique(env, data, PacketFiles(i, centerCount, IsMinor(data.dob, env.now)), p1.parts[1..], p2.parts[1..]);
    SamePacket(p1, p2);
  }

  lemma SamePacket(p1: Packet, p2: Packet)
    requires p1.filename == p2.filename && |p1.parts| >= 1 && |p2.parts| >= 1
    requires p1.parts[0] == p2.parts[0] && p1.parts[1..] == p2.parts[1..]
    ensures p1 == p2
  {
    assert p1.parts == [p1.parts[0]] + p1.parts[1..];
    assert p2.parts == [p2.parts[0]] + p2.parts[1..];
  }

  /** `buildPacketBuffers` has one outcome for given inputs: `BuildPacketBuffers`
      shows it has one, and this that it has no other. */
  lemma PlanDeterministic(env: Env, data: Submission, r1: Result<seq<Packet>, string>, r2: Result<seq<Packet>, string>)
    requires IsPlan(env, data, r1) && IsPlan(env, data, r2)
    ensures r1 == r2
  {
    var missing := FirstMissing(env.forms, RequiredRoles(IsMinor(data.dob, env.now)));
    if missing.None? {
      var centers := CenterList(data.centers);
      var labels := PacketLabels(centers);
      forall j | 0 <= j < |labels| ensures r1.value[j] == r2.value[j] {
        PacketUnique(env, data, j, |centers|, labels[j], r1.value[j], r2.value[j]);
      }
      assert r1.value == r2.value;
    }
  }

  /* ---- Failure ---- */

  /** The packets fail exactly when one of the required templates is not in
      the forms directory; the message names the first such one, every
      template checked before it being there. */
  lemma PlanFailsIff(env: Env, data: Submission, r: Result<seq<Packet>, string>)
    requires IsPlan(env, data, r)
    ensures var required := RequiredRoles(IsMinor(data.dob, env.now));
      r.Failure? <==> exists role :: role in required && FormFile(role) !in env.forms
    ensures r.Failure? ==> var required := RequiredRoles(IsMinor(data.dob, env.now));
      exists k :: 0 <= k < |required| && FormFile(required[k]) !in env.forms
        && AllPresent(env.forms, required[..k])
        && r.error == MissingFileMessage(FormFile(required[k]), env.formsDir)
  {
    var required := RequiredRoles(IsMinor(data.dob, env.now));
    FirstMissingNone(env.forms, required);
    if r.Failure? {
      var k := FirstMissingAt(env.forms, required);
      assert required[k] in required;
    }
  }

  /** A minor's packets also need the youth waiver; an adult's do not. */
  lemma RequiredForMinor(isMinor: bool)
    ensures Youth in RequiredRoles(isMinor) <==> isMinor
    ensures forall role :: role != Youth ==> role in RequiredRoles(isMinor)
  {
    forall role | role != Youth ensures role in RequiredRoles(isMinor) {
      assert RequiredRoles(isMinor)[..4] == [Medical, Waiver, Boat, Rdc];
      var j := match role case Medical => 0 case Waiver => 1 case Boat => 2 case Rdc => 3 case Youth => 0;
      assert RequiredRoles(isMinor)[j] == role;
    }
  }

  /* ---- Labels and the documents of each packet ---- */

  /** The fallback after `suffixes[0]` is never taken: the labels are the
      suffixes, so one packet for fewer than two centers and otherwise
      Havelock's and Neil's, however many centers there are. */
  lemma LabelsAreSuffixes(centers: seq<string>)
    ensures PacketLabels(centers) == CenterSuffixes(centers)
    ensures |PacketLabels(centers)| == if |centers| < 2 then 1 else 2
    ensures |centers| >= 2 ==> PacketLabels(centers) == ["Havelock", "Neil"]
    ensures |centers| < 2 ==>
      PacketLabels(centers) == [if |centers| == 1 && centers[0] != "" then centers[0] else "Havelock"]
  {
    var suffixes := CenterSuffixes(centers);
    assert suffixes[0] != "";
  }

  /** A single `data.centers` value names the one packet: the value itself,
      or Havelock when it is empty. */
  lemma ScalarCenterLabel(s: string)
    ensures PacketLabels(CenterList(Scalar(s))) == [if s != "" then s else "Havelock"]
  {
    LabelsAreSuffixes(CenterList(Scalar(s)));
  }

  /** With a single `data.centers` value the build makes one packet, labelled
      and named by that value (or Havelock when it is empty). */
  lemma ScalarCenterPacket(env: Env, data: Submission, s: string, r: Result<seq<Packet>, string>)
    requires data.centers == Scalar(s) && IsPlan(env, data, r) && r.Success?
    ensures var centerLabel := if s != "" then s else "Havelock";
      |r.value| == 1
      && r.value[0].filename == PacketFilename(SafeName(data.fullName, data.name), centerLabel, env.now)
      && r.value[0].parts[0] == CoverSheet(data, centerLabel, env.now, data.signature, GuardianSigFor(data, env.now))
  {
    ScalarCenterLabel(s);
  }

  /** `PacketFiles` are the templates of `PacketRoles`, in the same order. */
  lemma PacketFilesOfRoles(i: nat, centerCount: nat, isMinor: bool)
    ensures |PacketFiles(i, centerCount, isMinor)| == |PacketRoles(i, centerCount, isMinor)|
    ensures forall k :: 0 <= k < |PacketRoles(i, centerCount, isMinor)| ==>
      PacketFiles(i, centerCount, isMinor)[k] == FormFile(PacketRoles(i, centerCount, isMinor)[k])
  {
  }

  /** Every packet starts with medical, waiver and boat; the RDC form follows
      exactly on the first packet or with a single center, and the youth
      waiver after it exactly when that holds and the guest is a minor. */
  lemma PacketRolesShape(i: nat, centerCount: nat, isMinor: bool)
    ensures var roles := PacketRoles(i, centerCount, isMinor);
      |roles| >= 3 && roles[..3] == BaseRoles
      && (Rdc in roles <==> centerCount == 1 || i == 0)
      && (Youth in roles <==> (centerCount == 1 || i == 0) && isMinor)
      && (Rdc in roles ==> roles[3] == Rdc)
      && (Youth in roles ==> roles[|roles| - 1] == Youth)
  {
    var roles := PacketRoles(i, centerCount, isMinor);
    assert Rdc !in BaseRoles && Youth !in BaseRoles;
    assert roles[..3] == BaseRoles;
  }

  /** The RDC form is in the first packet and in no other. */
  lemma RdcOnlyInFirstPacket(env: Env, data: Submission, r: Result<seq<Packet>, string>)
    requires IsPlan(env, data, r) && r.Success?
    ensures var cc := |CenterList(data.centers)|;
      forall j :: 0 <= j < |r.value| ==> (Rdc in PacketRoles(j, cc, IsMinor(data.dob, env.now)) <==> j == 0)
  {
    var centers := CenterList(data.centers);
    LabelsAreSuffixes(centers);
    forall j | 0 <= j < |r.value|
      ensures Rdc in PacketRoles(j, |centers|, IsMinor(data.dob, env.now)) <==> j == 0
    {
      PacketRolesShape(j, |centers|, IsMinor(data.dob, env.now));
    }
  }

  /** The templates of the first `n` packets, one packet after another. */
  function PlanRoles(n: nat, centerCount: nat, isMinor: bool): seq<Role> {
    if n == 0 then [] else PlanRoles(n - 1, centerCount, isMinor) + PacketRoles(n - 1, centerCount, isMinor)
  }

  /** Together the packets hold the documents `bundleForCenters` lists, each
      as often; with a single center in the same order too. */
  lemma PlanRolesAreBundle(centers: seq<string>, isMinor: bool)
    ensures var plan := PlanRoles(|PacketLabels(centers)|, |centers|, isMinor);
      multiset(plan) == multiset(BundleForCenters(centers, isMinor))
      && (|centers| <= 1 ==> plan == BundleForCenters(centers, isMinor))
  {
    LabelsAreSuffixes(centers);
    var extra := [Rdc] + (if isMinor then [Youth] else []);
    if |centers| <= 1 {
      PlanOneCenter(centers, isMinor, extra);
    } else {
      PlanSeveralCenters(centers, isMinor, extra);
    }
  }

  lemma PlanOneCenter(centers: seq<string>, isMinor: bool, extra: seq<Role>)
    requires |centers| <= 1 && extra == [Rdc] + (if isMinor then [Youth] else [])
    ensures PlanRoles(1, |centers|, isMinor) == BundleForCenters(centers, isMinor)
  {
    assert BundleForCenters(centers, isMinor) == BaseRoles + extra;
    assert PlanRoles(1, |centers|, isMinor) == [] + (BaseRoles + extra);
  }

  lemma PlanSeveralCenters(centers: seq<string>, isMinor: bool, extra: seq<Role>)
    requires |centers| > 1 && extra == [Rdc] + (if isMinor then [Youth] else [])
    ensures multiset(PlanRoles(2, |centers|, isMinor)) == multiset(BundleForCenters(centers, isMinor))
  {
    assert BundleForCenters(centers, isMinor) == BaseRoles + BaseRoles + extra;
    assert PlanRoles(1, |centers|, isMinor) == [] + (BaseRoles + extra);
    assert PlanRoles(2, |centers|, isMinor) == BaseRoles + extra + BaseRoles;
    SwapLast(BaseRoles, extra, BaseRoles);
  }

  lemma SwapLast(a: seq<Role>, b: seq<Role>, c: seq<Role>)
    ensures multiset(a + b + c) == multiset(a + c + b)
  {
    calc {
      multiset(a + b + c);
      multiset(a) + multiset(b) + multiset(c);
      multiset(a + c + b);
    }
  }

  /** After the cover, document `k` of a packet is its `k`-th template,
      with the page count read from the forms directory: copied unchanged
      exactly when its overlay throws, otherwise carrying the draws
      `overlayWithData` makes with this guest's data and signatures. */
  lemma PartsOfPacket(env: Env, data: Submission, i: nat, centerCount: nat, centerLabel: string, p: Packet, k: nat)
    requires IsPacket(env, data, i, centerCount, centerLabel, p)
    requires 1 <= k < |p.parts|
    ensures var files := PacketFiles(i, centerCount, IsMinor(data.dob, env.now));
      var part := p.parts[k];
      |p.parts| == 1 + |files|
      && !part.Cover? && part.file == files[k - 1]
      && part.file in env.forms && part.pages == env.forms[part.file]
      && (part.Original? <==> part.file in env.failing)
      && (part.Filled? ==>
            part.draws == OverlayPlan(part.file, part.pages, data, data.signature, GuardianSigFor(data, env.now), env.now, env.width))
  {
    var files := PacketFiles(i, centerCount, IsMinor(data.dob, env.now));
    assert p.parts[1..][k - 1] == p.parts[k];
  }

  /** A packet holds its cover and four to six templates, the cover first
      and nowhere else. */
  lemma PacketSize(env: Env, data: Submission, i: nat, centerCount: nat, centerLabel: string, p: Packet)
    requires IsPacket(env, data, i, centerCount, centerLabel, p)
    ensures 4 <= |p.parts| <= 6 && p.parts[0].Cover?
    ensures forall k :: 1 <= k < |p.parts| ==> !p.parts[k].Cover?
  {
    forall k | 1 <= k < |p.parts| ensures !p.parts[k].Cover? {
      PartsOfPacket(env, data, i, centerCount, centerLabel, p, k);
    }
  }

  /* ---- The cover sheet ---- */

  /** The cover shows the guest's signature exactly when one was given and
      its bytes embed, and the guardian's exactly when the guest is a minor
      and the guardian's signature was given and embeds. */
  lemma CoverSignatures(data: Submission, centerLabel: string, now: Today)
    ensures var c := CoverSheet(data, centerLabel, now, data.signature, GuardianSigFor(data, now));
      (c.guestSignature <==> data.signature.Some? && data.signature.value.embeddable)
      && (c.guardianSignature <==>
            IsMinor(data.dob, now) && data.guardianSignature.Some? && data.guardianSignature.value.embeddable)
  {
  }

  /** Six lines, and a seventh naming the parent or guardian exactly when one
      was given; the date line is today in the `dd/MM/yyyy` form
      `toDDMMYYYY` writes, which reads back as today. */
  lemma CoverLines(data: Submission, centerLabel: string, now: Today, guestSig: Option<Signature>, guardianSig: Option<Signature>)
    requires now.year >= 1000
    ensures var c := CoverSheet(data, centerLabel, now, guestSig, guardianSig);
      |c.lines| == (if data.parentName != "" then 7 else 6)
      && (data.parentName != "" ==> c.lines[6] == "Parent/Guardian: " + data.parentName)
      && c.lines[5] == "Date: " + ToDDMMYYYY(Some(now))
      && ParseDDMMYYYY(c.lines[5][6..]) == Some(now)
  {
    DdMMyyyyAgrees(now);
    var c := CoverSheet(data, centerLabel, now, guestSig, guardianSig);
    assert c.lines[5] == "Date: " + DdMMyyyy(now);
    assert c.lines[5][6..] == DdMMyyyy(now);
  }

  /* ---- Filenames ---- */

  /** Two packets never share a filename: the labels put 'H' and 'N' at the
      same place after the same sanitised name. */
  lemma PlanFilenamesDiffer(env: Env, data: Submission, r: Result<seq<Packet>, string>)
    requires IsPlan(env, data, r) && r.Success? && |r.value| == 2
    ensures r.value[0].filename != r.value[1].filename
  {
    var centers := CenterList(data.centers);
    LabelsAreSuffixes(centers);
    var safe := SafeName(data.fullName, data.name);
    PacketFilenameOf(env, data, 0, |centers|, "Havelock", r.value[0]);
    PacketFilenameOf(env, data, 1, |centers|, "Neil", r.value[1]);
    FilenameLabelStart(safe, "Havelock", env.now);
    FilenameLabelStart(safe, "Neil", env.now);
  }

  lemma PacketFilenameOf(env: Env, data: Submission, i: nat, centerCount: nat, centerLabel: string, p: Packet)
    requires IsPacket(env, data, i, centerCount, centerLabel, p)
    ensures p.filename == PacketFilename(SafeName(data.fullName, data.name), centerLabel, env.now)
  {
  }

  /** The label starts right after the name and its underscore. */
  lemma FilenameLabelStart(safe: string, centerLabel: string, now: Today)
    requires centerLabel != []
    ensures |PacketFilename(safe, centerLabel, now)| > |safe| + 1
    ensures PacketFilename(safe, centerLabel, now)[|safe| + 1] == centerLabel[0]
  {
    var f := PacketFilename(safe, centerLabel, now);
    assert f == (safe + "_") + centerLabel + ("_" + YyyyMMdd(now) + ".pdf");
  }

  /** With two or more centers no filename holds white space; with one, a
      filename holds white space exactly when the center's name does, since
      the label is not sanitised. */
  lemma PlanFilenameSpaces(env: Env, data: Submission, r: Result<seq<Packet>, string>)
    requires IsPlan(env, data, r) && r.Success?
    ensures var centers := CenterList(data.centers);
      forall j :: 0 <= j < |r.value| ==>
        (NoSpace(r.value[j].filename) <==> NoSpace(PacketLabels(centers)[j]))
    ensures |CenterList(data.centers)| >= 2 ==>
      forall j :: 0 <= j < |r.value| ==> NoSpace(r.value[j].filename)
  {
    var centers := CenterList(data.centers);
    var labels := PacketLabels(centers);
    LabelsAreSuffixes(centers);
    forall j | 0 <= j < |r.value| ensures NoSpace(r.value[j].filename) <==> NoSpace(labels[j]) {
      assert IsPacket(env, data, j, |centers|, labels[j], r.value[j]);
      FilenameSpaces(data.fullName, data.name, labels[j], env.now);
    }
    if |centers| >= 2 {
      assert NoSpace("Havelock") && NoSpace("Neil");
    }
  }
}
