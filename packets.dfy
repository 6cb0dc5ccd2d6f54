/** The packet assembler of backend/pdfHandler.js: `ensureFormFileExists`,
    `makeCoverSheet` (its text and which signatures it shows),
    `appendOriginalFilled` and `buildPacketBuffers`. The forms directory is a
    map from the names of the files it holds to their page counts; whether
    `overlayWithData` throws on a file (`drawText` meeting a character that
    Helvetica's WinAnsi encoding lacks, say) is the set `failing`. */
module Packets {
  import opened Wrappers
  import opened Strings
  import opened Dates
  import opened Submissions
  import opened FieldMap
  import opened Overlay
  import opened FileNames

  /** What `buildPacketBuffers` sees of the outside world. */
  datatype Env = Env(
    forms: map<string, nat>,    // the files of the forms directory and their page counts
    formsDir: string,           // `FORMS_DIR`
    failing: set<string>,       // the files `overlayWithData` throws on
    now: Today,                 // `new Date()`
    width: WidthFn)             // Helvetica's text widths

  /** One document appended to a packet: the cover sheet, a template with the
      overlay's draws, or a template copied unchanged because its overlay
      threw. */
  datatype Part =
    | Cover(title: string, lines: seq<string>, guestSignature: bool, guardianSignature: bool)
    | Filled(file: string, pages: nat, draws: seq<Draw>)
    | Original(file: string, pages: nat)

  /** `{ filename, bytes }`, the bytes being the documents in order. */
  datatype Packet = Packet(filename: string, parts: seq<Part>)

  /* ---- ensureFormFileExists ---- */

  const Hint := "Please verify the filename (including exact spelling, case, underscores) matches what pdfHandler expects."

  function MissingFileMessage(filename: string, dir: string): string {
    "Missing required form file: " + filename + "\nLooked in: " + dir + "\n" + Hint
  }

  /** `ensureFormFileExists(filename)`: the file's path, or the error it throws. */
  function EnsureFormFileExists(env: Env, filename: string): (r: Result<string, string>)
    ensures r.Success? <==> filename in env.forms
    ensures r.Failure? ==> r.error == MissingFileMessage(filename, env.formsDir)
  {
    if filename in env.forms then Success(env.formsDir + "/" + filename)
    else Failure(MissingFileMessage(filename, env.formsDir))
  }

  /** `requiredKeys`: the roles whose files are checked before any packet is built. */
  function RequiredRoles(isMinor: bool): seq<Role> {
    [Medical, Waiver, Boat, Rdc] + (if isMinor then [Youth] else [])
  }

  /** The first role, in order, whose file is missing. */
  function FirstMissing(forms: map<string, nat>, roles: seq<Role>): Option<Role> {
    if roles == [] then None
    else if FormFile(roles[0]) !in forms then Some(roles[0])
    else FirstMissing(forms, roles[1..])
  }

  predicate AllPresent(forms: map<string, nat>, roles: seq<Role>) {
    forall r :: r in roles ==> FormFile(r) in forms
  }

  /** Nothing is missing exactly when every file is there. */
  lemma {:induction false} FirstMissingNone(forms: map<string, nat>, roles: seq<Role>)
    ensures FirstMissing(forms, roles).None? <==> AllPresent(forms, roles)
  {
    if roles != [] {
      FirstMissingNone(forms, roles[1..]);
      assert roles == [roles[0]] + roles[1..];
    }
  }

  /** The missing role reported is missing, and every role before it is there. */
  lemma {:induction false} FirstMissingAt(forms: map<string, nat>, roles: seq<Role>) returns (k: nat)
    requires FirstMissing(forms, roles).Some?
    ensures k < |roles| && roles[k] == FirstMissing(forms, roles).value
    ensures FormFile(roles[k]) !in forms && AllPresent(forms, roles[..k])
  {
    if FormFile(roles[0]) !in forms {
      k := 0;
    } else {
      var k' := FirstMissingAt(forms, roles[1..]);
      k := k' + 1;
      assert roles[..k] == [roles[0]] + roles[1..][..k'];
    }
  }

  /* ---- makeCoverSheet ---- */

  /** `Array.isArray(data.centers) ? data.centers.join(', ') : (data.centers || data.center || '')` */
  function CentersSelected(data: Submission): string {
    match data.centers
    case Listed(names) => Join(names, ", ")
    case Scalar(name) => if name != "" then name else data.center
  }

  /** The cover sheet: its title, its text lines in order, and which
      signature images it shows (bytes that do not embed are skipped). */
  function CoverSheet(data: Submission, centerLabel: string, now: Today,
                      guestSig: Option<Signature>, guardianSig: Option<Signature>): Part {
    Cover(
      "DIVEIndia - Guest Packet (" + centerLabel + ")",
      [ "Name: " + Trim(if data.fullName != "" then data.fullName else data.name),
        "DOB: " + data.dobText,
        "Phone: " + data.phone,
        "Email: " + data.email,
        "Centers Selected: " + CentersSelected(data),
        "Date: " + DdMMyyyy(now) ]
      + (if data.parentName != "" then ["Parent/Guardian: " + data.parentName] else []),
      guestSig.Some? && guestSig.value.embeddable,
      guardianSig.Some? && guardianSig.value.embeddable)
  }

  /* ---- appendOriginalFilled ---- */

  /** The guardian's signature as it is passed on: only for a minor. */
  function GuardianSigFor(data: Submission, now: Today): Option<Signature> {
    if IsMinor(data.dob, now) then data.guardianSignature else None
  }

  /** The document `appendOriginalFilled` appends for a file that exists:
      the template with the overlay's draws, or the template unchanged when
      the overlay throws. */
  function FilledPart(env: Env, data: Submission, file: string): Part
    requires file in env.forms
  {
    var pages := env.forms[file];
    if file in env.failing then Original(file, pages)
    else Filled(file, pages, OverlayPlan(file, pages, data, data.signature, GuardianSigFor(data, env.now), env.now, env.width))
  }

  predicate Present(forms: map<string, nat>, files: seq<string>) {
    forall j :: 0 <= j < |files| ==> files[j] in forms
  }

  /** `parts` are the documents appended for `files`, one for each, in order. */
  predicate AppendedParts(env: Env, data: Submission, files: seq<string>, parts: seq<Part>) {
    |parts| == |files|
    && forall k {:trigger parts[k]} :: 0 <= k < |files| ==>
         files[k] in env.forms && parts[k] == FilledPart(env, data, files[k])
  }

  lemma AppendedSnoc(env: Env, data: Submission, files: seq<string>, parts: seq<Part>, file: string)
    requires AppendedParts(env, data, files, parts) && file in env.forms
    ensures AppendedParts(env, data, files + [file], parts + [FilledPart(env, data, file)])
  {
    var fs := files + [file];
    var ps := parts + [FilledPart(env, data, file)];
    forall k | 0 <= k < |fs| ensures fs[k] in env.forms && ps[k] == FilledPart(env, data, fs[k]) {
      if k < |files| {
        assert fs[k] == files[k] && ps[k] == parts[k];
      }
    }
  }

  /** The output document of one packet, to which templates are appended. */
  class PacketDoc {
    var parts: seq<Part>

    constructor (cover: Part)
      ensures parts == [cover]
    {
      parts := [cover];
    }

    /** `appendOriginalFilled(pdfDoc, filename, data)`: appends the filled
        template, or the original one when the overlay throws; a missing
        file is the error `ensureFormFileExists` throws, and nothing is
        appended. */
    method AppendOriginalFilled(env: Env, data: Submission, filename: string) returns (err: Option<string>)
      modifies this
      ensures filename in env.forms ==> err.None? && parts == old(parts) + [FilledPart(env, data, filename)]
      ensures filename !in env.forms ==>
        err == Some(MissingFileMessage(filename, env.formsDir)) && parts == old(parts)
    {
      var srcPath := EnsureFormFileExists(env, filename);
      if srcPath.Failure? {
        return Some(srcPath.error);
      }
      var pages := env.forms[filename];
      var isMinor := IsMinor(data.dob, env.now);
      var guestSig := data.signature;
      var guardianSig := if isMinor then data.guardianSignature else None;
      var part := Original(filename, pages);
      if filename !in env.failing {
        var draws := OverlayWithData(filename, pages, data, guestSig, guardianSig, env.now, env.width);
        part := Filled(filename, pages, draws);
      }
      parts := parts + [part];
      return None;
    }

    /** `for (const key of baseForms) await appendOriginalFilled(...)` */
    method AppendForms(env: Env, data: Submission, files: seq<string>)
      requires Present(env.forms, files)
      modifies this
      ensures |parts| == |old(parts)| + |files| && parts[..|old(parts)|] == old(parts)
      ensures AppendedParts(env, data, files, parts[|old(parts)|..])
    {
      ghost var n := |parts|;
      var b := 0;
      while b < |files|
        invariant b <= |files| && |parts| == n + b && parts[..n] == old(parts)
        invariant AppendedParts(env, data, files[..b], parts[n..])
      {
        ghost var before := parts;
        AppendedSnoc(env, data, files[..b], parts[n..], files[b]);
        assert files[..b + 1] == files[..b] + [files[b]];
        var err := AppendOriginalFilled(env, data, files[b]);
        assert parts[n..] == before[n..] + [FilledPart(env, data, files[b])];
        assert parts[..n] == before[..n];
        b := b + 1;
      }
      assert files[..b] == files;
    }
  }

  /** One more `appendOriginalFilled` on a packet whose documents so far are
      the cover and `files`. */
  method AppendOne(doc: PacketDoc, env: Env, data: Submission, files: seq<string>, file: string)
    requires |doc.parts| >= 1 && AppendedParts(env, data, files, doc.parts[1..]) && file in env.forms
    modifies doc
    ensures |doc.parts| >= 1 && doc.parts[0] == old(doc.parts[0])
    ensures AppendedParts(env, data, files + [file], doc.parts[1..])
  {
    AppendedSnoc(env, data, files, doc.parts[1..], file);
    ghost var before := doc.parts;
    var err := doc.AppendOriginalFilled(env, data, file);
    assert doc.parts[1..] == before[1..] + [FilledPart(env, data, file)];
  }

  /* ---- buildPacketBuffers ---- */

  /** `centers.length > 1 ? suffixes : [suffixes[0] || centers[0] || 'Havelock']` */
  function PacketLabels(centers: seq<string>): seq<string> {
    var suffixes := CenterSuffixes(centers);
    if |centers| > 1 then suffixes
    else [if suffixes[0] != "" then suffixes[0] else if |centers| > 0 && centers[0] != "" then centers[0] else "Havelock"]
  }

  /** The templates of packet `i`: the base three, then the RDC form and, for
      a minor, the youth waiver when there is exactly one center or this is
      the first packet. */
  function PacketRoles(i: nat, centerCount: nat, isMinor: bool): seq<Role> {
    BaseRoles + (if centerCount == 1 || i == 0 then [Rdc] + (if isMinor then [Youth] else []) else [])
  }

  /** `baseForms`, as file names. */
  const BaseFiles: seq<string> := [FormFile(Medical), FormFile(Waiver), FormFile(Boat)]

  /** The files appended to packet `i`, in order. */
  function PacketFiles(i: nat, centerCount: nat, isMinor: bool): seq<string> {
    if centerCount == 1 || i == 0 then
      if isMinor then BaseFiles + [FormFile(Rdc)] + [FormFile(Youth)] else BaseFiles + [FormFile(Rdc)]
    else BaseFiles
  }

  /** Packet `i`, labelled `centerLabel`: its filename, its cover sheet, then
      one document for each of its files. */
  predicate IsPacket(env: Env, data: Submission, i: nat, centerCount: nat, centerLabel: string, p: Packet) {
    p.filename == PacketFilename(SafeName(data.fullName, data.name), centerLabel, env.now)
    && |p.parts| >= 1
    && p.parts[0] == CoverSheet(data, centerLabel, env.now, data.signature, GuardianSigFor(data, env.now))
    && AppendedParts(env, data, PacketFiles(i, centerCount, IsMinor(data.dob, env.now)), p.parts[1..])
  }

  /** What `buildPacketBuffers(data)` resolves to, or the error it rejects
      with: the first required file that is missing, else one packet per
      label. */
  predicate IsPlan(env: Env, data: Submission, r: Result<seq<Packet>, string>) {
    var missing := FirstMissing(env.forms, RequiredRoles(IsMinor(data.dob, env.now)));
    var centers := CenterList(data.centers);
    var labels := PacketLabels(centers);
    if missing.Some? then r == Failure(MissingFileMessage(FormFile(missing.value), env.formsDir))
    else
      r.Success? && |r.value| == |labels|
      && forall j :: 0 <= j < |labels| ==> IsPacket(env, data, j, |centers|, labels[j], r.value[j])
  }

  /** `buildPacketBuffers(data)`: the check loop, then the packet loop. */
  method BuildPacketBuffers(env: Env, data: Submission) returns (r: Result<seq<Packet>, string>)
    ensures IsPlan(env, data, r)
  {
    var isMinor := IsMinor(data.dob, env.now);
    var centers := CenterList(data.centers);
    var err := CheckRequired(env, RequiredRoles(isMinor));
    if err.Some? {
      return Failure(err.value);
    }
    var packetLabels := PacketLabels(centers);
    var packets := BuildPackets(env, data, packetLabels, |centers|);
    return Success(packets);
  }

  /** The check loop of `buildPacketBuffers`: `ensureFormFileExists` on each
      required file in turn, stopping at the first error. */
  method CheckRequired(env: Env, requiredKeys: seq<Role>) returns (err: Option<string>)
    ensures err.None? <==> FirstMissing(env.forms, requiredKeys).None?
    ensures err.None? ==> AllPresent(env.forms, requiredKeys)
    ensures err.Some? ==>
      err.value == MissingFileMessage(FormFile(FirstMissing(env.forms, requiredKeys).value), env.formsDir)
  {
    var k := 0;
    while k < |requiredKeys|
      invariant k <= |requiredKeys|
      invariant FirstMissing(env.forms, requiredKeys) == FirstMissing(env.forms, requiredKeys[k..])
    {
      var p := EnsureFormFileExists(env, FormFile(requiredKeys[k]));
      if p.Failure? {
        return Some(p.error);
      }
      assert requiredKeys[k..][1..] == requiredKeys[k + 1..];
      k := k + 1;
    }
    FirstMissingNone(env.forms, requiredKeys);
    return None;
  }

  /** The packet loop of `buildPacketBuffers`: one packet per label. */
  method BuildPackets(env: Env, data: Submission, packetLabels: seq<string>, centerCount: nat)
    returns (packets: seq<Packet>)
    requires AllPresent(env.forms, RequiredRoles(IsMinor(data.dob, env.now)))
    ensures |packets| == |packetLabels|
    ensures forall j :: 0 <= j < |packetLabels| ==>
      IsPacket(env, data, j, centerCount, packetLabels[j], packets[j])
  {
    packets := [];
    var i := 0;
    while i < |packetLabels|
      invariant i <= |packetLabels| && |packets| == i
      invariant forall j :: 0 <= j < i ==> IsPacket(env, data, j, centerCount, packetLabels[j], packets[j])
    {
      var packet := BuildPacket(env, data, i, centerCount, packetLabels[i]);
      PacketsSnoc(env, data, packetLabels, centerCount, packets, packet);
      packets := packets + [packet];
      i := i + 1;
    }
  }

  lemma PacketsSnoc(env: Env, data: Submission, labels: seq<string>, centerCount: nat, packets: seq<Packet>, packet: Packet)
    requires |packets| < |labels|
    requires forall j :: 0 <= j < |packets| ==> IsPacket(env, data, j, centerCount, labels[j], packets[j])
    requires IsPacket(env, data, |packets|, centerCount, labels[|packets|], packet)
    ensures forall j :: 0 <= j < |packets| + 1 ==> IsPacket(env, data, j, centerCount, labels[j], (packets + [packet])[j])
  {
    forall j | 0 <= j < |packets| + 1
      ensures IsPacket(env, data, j, centerCount, labels[j], (packets + [packet])[j])
    {
      if j < |packets| {
        assert (packets + [packet])[j] == packets[j];
      }
    }
  }

  /** The body of the packet loop: the cover sheet, the templates, and the
      filename. */
  method BuildPacket(env: Env, data: Submission, i: nat, centerCount: nat, centerLabel: string) returns (p: Packet)
    requires AllPresent(env.forms, RequiredRoles(IsMinor(data.dob, env.now)))
    ensures IsPacket(env, data, i, centerCount, centerLabel, p)
  {
    var isMinor := IsMinor(data.dob, env.now);
    var cover := CoverSheet(data, centerLabel, env.now, data.signature, if isMinor then data.guardianSignature else None);
    var packetDoc := new PacketDoc(cover);
    FillPacket(packetDoc, env, data, i, centerCount);
    var safeName := SafeName(data.fullName, data.name);
    var filename := PacketFilename(safeName, centerLabel, env.now);
    p := Packet(filename, packetDoc.parts);
  }

  /** The templates of packet `i` after its cover: the base forms, then the
      RDC form and, for a minor, the youth waiver where they belong. */
  method FillPacket(packetDoc: PacketDoc, env: Env, data: Submission, i: nat, centerCount: nat)
    requires AllPresent(env.forms, RequiredRoles(IsMinor(data.dob, env.now)))
    requires |packetDoc.parts| == 1
    modifies packetDoc
    ensures |packetDoc.parts| >= 1 && packetDoc.parts[0] == old(packetDoc.parts[0])
    ensures AppendedParts(env, data, PacketFiles(i, centerCount, IsMinor(data.dob, env.now)), packetDoc.parts[1..])
  {
    var isMinor := IsMinor(data.dob, env.now);
    RequiredFilesPresent(env.forms, isMinor);
    var baseForms := BaseFiles;
    packetDoc.AppendForms(env, data, baseForms);
    if centerCount == 1 || i == 0 {
      AppendOne(packetDoc, env, data, baseForms, FormFile(Rdc));
      if isMinor {
        AppendOne(packetDoc, env, data, baseForms + [FormFile(Rdc)], FormFile(Youth));
      }
    }
  }

  /** Every template a packet takes is among the required ones. */
  lemma RequiredFilesPresent(forms: map<string, nat>, isMinor: bool)
    requires AllPresent(forms, RequiredRoles(isMinor))
    ensures Present(forms, BaseFiles) && FormFile(Rdc) in forms
    ensures isMinor ==> FormFile(Youth) in forms
  {
    assert Medical in RequiredRoles(isMinor) && Waiver in RequiredRoles(isMinor);
    assert Boat in RequiredRoles(isMinor) && Rdc in RequiredRoles(isMinor);
    if isMinor {
      assert Youth in RequiredRoles(isMinor);
    }
  }
}
