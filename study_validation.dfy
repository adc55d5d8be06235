/**
 * `validate_study` (usdm_validator.py:175-406): the envelope checks, the
 * three early exits, the version-level and per-design legacy checks, the
 * linked-list checks, capped broken-reference reporting and the three
 * tree-wide per-object checks.  `StudyReport` states the whole outcome as
 * a function of the document; `ValidateStudy` produces it step by step.
 */
module StudyValidation {
  import opened PyText
  import opened Json
  import opened JsonTree
  import opened ValidationResults
  import opened UsdmUtils
  import opened UsdmValidator

  /** The outcome of a validation run. */
  datatype Report = Report(errors: seq<string>, warnings: seq<string>, info: seq<string>)

  /** How many broken references are listed one by one. */
  const BrokenReferenceCap: nat := 20

  /** A warning when `c` holds. */
  function WarnIf(c: bool, msg: string): seq<string> {
    if c then [WarningText(msg)] else []
  }

  /** The findings `f` reports for each item, concatenated in order. */
  function PerItem(xs: seq<Json>, p: string, f: (string, Json) -> seq<string>): seq<string> {
    if xs == [] then []
    else PerItem(xs[..|xs| - 1], p, f) + f(p, xs[|xs| - 1])
  }

  lemma PerItemStep(xs: seq<Json>, i: nat, p: string, f: (string, Json) -> seq<string>)
    requires i < |xs|
    ensures PerItem(xs[..i + 1], p, f) == PerItem(xs[..i], p, f) + f(p, xs[i])
  {
    assert xs[..i + 1][..i] == xs[..i];
  }

  // ================================================================ reads

  function Arms(design: Json): seq<Json> { ListOr(design, "arms", "studyArms") }
  function Epochs(design: Json): seq<Json> { ListOr(design, "epochs", "studyEpochs") }
  function Encounters(design: Json): seq<Json> { ArrField(design, "encounters") }
  function Activities(design: Json): seq<Json> { ArrField(design, "activities") }

  /** `design.get(legacy) and not design.get(current)`. */
  predicate Legacy(design: Json, legacy: string, current: string) {
    Truthy(GetOrNull(design, legacy)) && !Truthy(GetOrNull(design, current))
  }

  /** The `f"studyDesigns[{di}]"` prefix of every per-design message. */
  function Prefix(di: nat): string {
    "studyDesigns[" + NatToString(di) + "]"
  }

  /** The designs the per-design checks run on: those of the first version,
      when the study and a version exist. */
  function DesignsOf(data: Json): seq<Json> {
    if !HasKey(data, "study") then []
    else
      var versions := ArrField(GetOrNull(data, "study"), "versions");
      if versions == [] then [] else ArrField(versions[0], "studyDesigns")
  }

  /** The linked lists of a design can be indexed by `id`. */
  predicate DesignKeyed(design: Json) {
    LinksKeyed(Epochs(design)) && LinksKeyed(Encounters(design)) && LinksKeyed(Activities(design))
  }

  /** Every design's linked lists can be indexed by `id`: `validate_linked_list`
      raises KeyError otherwise. */
  predicate StudyKeyed(data: Json) {
    forall i :: 0 <= i < |DesignsOf(data)| ==> DesignKeyed(DesignsOf(data)[i])
  }

  // ================================================================ envelope and version

  function EnvelopeWarnings(data: Json): seq<string> {
    WarnIf(!Truthy(GetOrNull(data, "usdmVersion")), "Missing root 'usdmVersion' field")
    + WarnIf(!Truthy(GetOrNull(data, "systemName")), "Missing root 'systemName' field")
  }

  function StudyTypeErrors(study: Json): seq<string> {
    var t := GetOrNull(study, "instanceType");
    if t != JStr("Study") then [ErrorText("Study instanceType should be 'Study', got '" + PyStr(t) + "'")] else []
  }

  function IdentifierWarnings(p: string, sid: Json): seq<string> {
    WarnIf(HasKey(sid, "studyIdentifier"), "StudyIdentifier uses legacy 'studyIdentifier' field; should use 'text'")
    + WarnIf(HasKey(sid, "studyIdentifierScope"), "StudyIdentifier uses legacy 'studyIdentifierScope'; should use 'scopeId'")
  }

  function VersionWarnings(version: Json): seq<string> {
    var identifiers := ArrField(version, "studyIdentifiers");
    (if identifiers == [] then [WarningText("Version has no studyIdentifiers")]
     else PerItem(identifiers, "", IdentifierWarnings))
    + WarnIf(ArrField(version, "titles") == [], "Version has no titles (expected StudyTitle objects)")
  }

  // ================================================================ per design

  function TypeWarnings(design: Json, p: string): seq<string> {
    var t := StrField(design, "instanceType");
    if t == "StudyDesign" then
      [WarningText(p + ": instanceType is 'StudyDesign'; should be 'InterventionalStudyDesign' (or other subtype)")]
    else if Contains(t, "StudyDesign") then []
    else [WarningText(p + ": unexpected instanceType '" + t + "'")]
  }

  function ArmTypeWarning(p: string, arm: Json): seq<string> {
    WarnIf(HasKey(arm, "armType"), p + ": Arm uses legacy 'armType'; should use 'type'")
  }

  function ArmWarnings(design: Json, p: string): seq<string> {
    WarnIf(Legacy(design, "studyArms", "arms"), p + ": Uses legacy 'studyArms'; should use 'arms'")
    + WarnIf(Arms(design) == [], p + ": No arms defined")
    + PerItem(Arms(design), p, ArmTypeWarning)
  }

  /** Some item has the key. */
  predicate AnyHasKey(xs: seq<Json>, key: string) {
    exists i :: 0 <= i < |xs| && HasKey(xs[i], key)
  }

  function EpochWarnings(design: Json, p: string): seq<string> {
    WarnIf(Legacy(design, "studyEpochs", "epochs"), p + ": Uses legacy 'studyEpochs'; should use 'epochs'")
    + WarnIf(Epochs(design) == [], p + ": No epochs defined")
    + LinkedListWarnings(Epochs(design), p + ".epochs")
    + WarnIf(AnyHasKey(Epochs(design), "sequenceNumber"),
             p + ": Epochs use legacy 'sequenceNumber'; should use previousId/nextId linked list")
  }

  function LegacyFieldWarnings(design: Json, p: string): seq<string> {
    WarnIf(Legacy(design, "studyElements", "elements"), p + ": Uses legacy 'studyElements'; should use 'elements'")
    + WarnIf(Legacy(design, "interventionModel", "model"), p + ": Uses legacy 'interventionModel'; should use 'model'")
    + WarnIf(Legacy(design, "trialIntentTypes", "intentTypes"), p + ": Uses legacy 'trialIntentTypes'; should use 'intentTypes'")
    + WarnIf(Legacy(design, "trialTypes", "subTypes"), p + ": Uses legacy 'trialTypes'; should use 'subTypes'")
  }

  function EncounterTypeWarning(p: string, encounter: Json): seq<string> {
    WarnIf(HasKey(encounter, "encounterType"), p + ": Encounter uses legacy 'encounterType'; should use 'type'")
  }

  function EncounterWarnings(design: Json, p: string): seq<string> {
    LinkedListWarnings(Encounters(design), p + ".encounters") + PerItem(Encounters(design), p, EncounterTypeWarning)
  }

  /** `"primary" in o.get("level", {}).get("decode", "").lower()`. */
  predicate IsPrimary(objective: Json) {
    Contains(Lower(DecodeOf(objective, "level")), "primary")
  }

  /** The primary objectives, in order. */
  function Primary(objectives: seq<Json>): (r: seq<Json>)
    ensures r == [] <==> forall i :: 0 <= i < |objectives| ==> !IsPrimary(objectives[i])
  {
    if objectives == [] then []
    else
      var last := objectives[|objectives| - 1];
      Primary(objectives[..|objectives| - 1]) + (if IsPrimary(last) then [last] else [])
  }

  function EndpointIdsWarning(p: string, objective: Json): seq<string> {
    WarnIf(Truthy(GetOrNull(objective, "endpointIds")),
           p + ": Objective uses legacy 'endpointIds'; endpoints should be embedded directly")
  }

  function ObjectiveWarnings(design: Json, p: string): seq<string> {
    var objectives := ArrField(design, "objectives");
    WarnIf(Primary(objectives) == [], p + ": No primary objective defined")
    + WarnIf(Truthy(GetOrNull(design, "endpoints")),
             p + ": Has design-level 'endpoints[]'; in v4.0.0 endpoints should be embedded in objectives")
    + PerItem(objectives, p, EndpointIdsWarning)
  }

  function PopulationWarnings(design: Json, p: string): seq<string> {
    var population := GetOrNull(design, "population");
    WarnIf(Truthy(Get(design, "populations", JArr([]))) && !Truthy(population),
           p + ": Uses legacy 'populations[]' array; should use singular 'population'")
    + WarnIf(!Truthy(population), p + ": No population defined")
  }

  function InlineTextWarning(p: string, criterion: Json): seq<string> {
    WarnIf(Truthy(GetOrNull(criterion, "text")) && !Truthy(GetOrNull(criterion, "criterionItemId")),
           p + ": Criterion uses legacy inline 'text'; should use criterionItemId")
  }

  function CriterionWarnings(design: Json, p: string): seq<string> {
    PerItem(ArrField(design, "eligibilityCriteria"), p, InlineTextWarning)
    + WarnIf(Truthy(GetOrNull(design, "studyInterventions")),
             p + ": Has design-level 'studyInterventions'; should be at version level")
  }

  /** The warnings for one design, in the order the checks run. */
  function DesignWarnings(design: Json, di: nat): seq<string> {
    var p := Prefix(di);
    TypeWarnings(design, p) + ArmWarnings(design, p) + EpochWarnings(design, p)
    + LegacyFieldWarnings(design, p) + EncounterWarnings(design, p)
    + LinkedListWarnings(Activities(design), p + ".activities")
    + ObjectiveWarnings(design, p) + PopulationWarnings(design, p) + CriterionWarnings(design, p)
  }

  /** The errors for one design: those of its three linked lists. */
  function DesignErrors(design: Json, di: nat): seq<string> {
    var p := Prefix(di);
    LinkedListErrors(Epochs(design), p + ".epochs")
    + LinkedListErrors(Encounters(design), p + ".encounters")
    + LinkedListErrors(Activities(design), p + ".activities")
  }

  function AllDesignWarnings(designs: seq<Json>, n: nat): seq<string>
    requires n <= |designs|
  {
    if n == 0 then [] else AllDesignWarnings(designs, n - 1) + DesignWarnings(designs[n - 1], n - 1)
  }

  function AllDesignErrors(designs: seq<Json>, n: nat): seq<string>
    requires n <= |designs|
  {
    if n == 0 then [] else AllDesignErrors(designs, n - 1) + DesignErrors(designs[n - 1], n - 1)
  }

  // ================================================================ cross-references

  /** The references whose id is not an indexed id, in order. */
  function Orphans(refs: seq<Ref>, ids: map<Json, string>): (r: seq<Ref>)
    ensures forall x :: x in r <==> x in refs && JStr(x.0) !in ids
  {
    if refs == [] then []
    else
      var last := refs[|refs| - 1];
      var init := Orphans(refs[..|refs| - 1], ids);
      assert refs == refs[..|refs| - 1] + [last];
      init + (if JStr(last.0) in ids then [] else [last])
  }

  function BrokenReference(r: Ref): seq<string> {
    [ErrorText("Broken reference at " + r.1 + ": '" + r.0 + "' not found")]
  }

  /** The first `BrokenReferenceCap` broken references one by one, then a
      summary of how many more there are. */
  function OrphanErrors(orphans: seq<Ref>): seq<string> {
    var shown := if |orphans| <= BrokenReferenceCap then orphans else orphans[..BrokenReferenceCap];
    Gather(shown, BrokenReference)
    + (if |orphans| > BrokenReferenceCap
       then [ErrorText("... and " + IntToString(|orphans| - BrokenReferenceCap) + " more broken references")]
       else [])
  }

  /** The broken references of a whole document. */
  function DocumentOrphans(data: Json): seq<Ref> {
    Orphans(Refs(data, "root"), IdIndex(Nodes(data, "root")))
  }

  function CrossReferenceInfo(orphans: seq<Ref>, refs: seq<Ref>): seq<string> {
    if orphans == [] then [InfoText("All " + NatToString(|refs|) + " cross-references are valid")] else []
  }

  // ================================================================ the whole run

  /** What `validate_study` records, as a function of the document.  Of the
      informational messages only the cross-reference one is stated. */
  function StudyReport(data: Json): Report {
    var envelope := EnvelopeWarnings(data);
    if !HasKey(data, "study") then Report([ErrorText("Missing root 'study' object")], envelope, [])
    else
      var study := GetOrNull(data, "study");
      var typeErrors := StudyTypeErrors(study);
      var versions := ArrField(study, "versions");
      if versions == [] then
        Report(typeErrors + [ErrorText("Study has no 'versions' array (required in v4.0.0)")], envelope, [])
      else
        var version := versions[0];
        var warnings := envelope + VersionWarnings(version);
        var designs := ArrField(version, "studyDesigns");
        if designs == [] then Report(typeErrors + [ErrorText("Version has no studyDesigns")], warnings, [])
        else
          var refs := Refs(data, "root");
          var orphans := DocumentOrphans(data);
          Report(
            typeErrors + AllDesignErrors(designs, |designs|) + OrphanErrors(orphans)
            + Findings(data, "root", IncompleteCode),
            warnings + AllDesignWarnings(designs, |designs|)
            + Findings(data, "root", MissingInstanceType) + Findings(data, "root", MissingExtensionAttributes),
            CrossReferenceInfo(orphans, refs))
  }

  /** Without a `study` object the run stops at one error, after the
      envelope warnings. */
  lemma NoStudyReport(data: Json)
    requires !HasKey(data, "study")
    ensures StudyReport(data) == Report([ErrorText("Missing root 'study' object")], EnvelopeWarnings(data), [])
  {
  }

  /** Without versions the run stops after the study's type check. */
  lemma NoVersionsReport(data: Json)
    requires HasKey(data, "study") && ArrField(GetOrNull(data, "study"), "versions") == []
    ensures StudyReport(data) == Report(
      StudyTypeErrors(GetOrNull(data, "study")) + [ErrorText("Study has no 'versions' array (required in v4.0.0)")],
      EnvelopeWarnings(data), [])
  {
  }

  /** Without designs the run stops after the first version's checks. */
  lemma NoDesignsReport(data: Json, version: Json)
    requires HasKey(data, "study")
    requires var versions := ArrField(GetOrNull(data, "study"), "versions");
      versions != [] && version == versions[0] && ArrField(version, "studyDesigns") == []
    ensures StudyReport(data) == Report(
      StudyTypeErrors(GetOrNull(data, "study")) + [ErrorText("Version has no studyDesigns")],
      EnvelopeWarnings(data) + VersionWarnings(version), [])
  {
  }

  /** A run that reaches the designs reports, in order, the study's type
      error, the designs' findings, the broken references and the
      tree-wide per-object findings. */
  lemma FullReport(data: Json, version: Json)
    requires HasKey(data, "study")
    requires var versions := ArrField(GetOrNull(data, "study"), "versions");
      versions != [] && version == versions[0] && ArrField(version, "studyDesigns") != []
    ensures var designs := ArrField(version, "studyDesigns");
      var refs := Refs(data, "root");
      var orphans := DocumentOrphans(data);
      StudyReport(data) == Report(
        StudyTypeErrors(GetOrNull(data, "study")) + AllDesignErrors(designs, |designs|) + OrphanErrors(orphans)
        + Findings(data, "root", IncompleteCode),
        EnvelopeWarnings(data) + VersionWarnings(version) + AllDesignWarnings(designs, |designs|)
        + Findings(data, "root", MissingInstanceType) + Findings(data, "root", MissingExtensionAttributes),
        CrossReferenceInfo(orphans, refs))
  {
  }

  // ================================================================ properties of a run

  /** One error per broken reference listed, in order. */
  lemma {:induction false} BrokenReferencesListed(xs: seq<Ref>)
    ensures |Gather(xs, BrokenReference)| == |xs|
    ensures forall i :: 0 <= i < |xs| ==> Gather(xs, BrokenReference)[i] == BrokenReference(xs[i])[0]
  {
    if xs != [] {
      var init := xs[..|xs| - 1];
      BrokenReferencesListed(init);
      assert forall i :: 0 <= i < |init| ==> xs[i] == init[i];
    }
  }

  /** At most `BrokenReferenceCap` broken references are listed, the first
      ones in order, and one summary line stands for the rest; there are
      no such errors exactly when nothing is broken. */
  lemma OrphanErrorsCapped(orphans: seq<Ref>)
    ensures |OrphanErrors(orphans)| ==
      if |orphans| <= BrokenReferenceCap then |orphans| else BrokenReferenceCap + 1
    ensures forall i :: 0 <= i < |orphans| && i < BrokenReferenceCap ==>
      OrphanErrors(orphans)[i] == ErrorText("Broken reference at " + orphans[i].1 + ": '" + orphans[i].0 + "' not found")
    ensures OrphanErrors(orphans) == [] <==> orphans == []
  {
    var shown := if |orphans| <= BrokenReferenceCap then orphans else orphans[..BrokenReferenceCap];
    BrokenReferencesListed(shown);
  }

  /** From `start` on, `errors` lists the first `BrokenReferenceCap` broken
      references one by one, then the summary line for the rest. */
  predicate ReferenceBlock(errors: seq<string>, start: nat, orphans: seq<Ref>) {
    var shown := if |orphans| <= BrokenReferenceCap then |orphans| else BrokenReferenceCap;
    start + shown + (if |orphans| > BrokenReferenceCap then 1 else 0) <= |errors|
    && (forall k :: 0 <= k < shown ==>
          errors[start + k] == ErrorText("Broken reference at " + orphans[k].1 + ": '" + orphans[k].0 + "' not found"))
    && (|orphans| > BrokenReferenceCap ==>
          errors[start + shown] == ErrorText("... and " + IntToString(|orphans| - BrokenReferenceCap) + " more broken references"))
  }

  /** `errors` is `head`, then the block of capped broken references, then
      `tail`. */
  predicate ErrorLayout(errors: seq<string>, head: seq<string>, orphans: seq<Ref>, tail: seq<string>) {
    |head| + |OrphanErrors(orphans)| <= |errors|
    && errors[..|head|] == head
    && ReferenceBlock(errors, |head|, orphans)
    && errors[|head| + |OrphanErrors(orphans)|..] == tail
  }

  /** Whatever comes before and after, the capped errors form that block. */
  lemma OrphanBlock(head: seq<string>, orphans: seq<Ref>, tail: seq<string>)
    ensures ErrorLayout(head + OrphanErrors(orphans) + tail, head, orphans, tail)
  {
    var block := OrphanErrors(orphans);
    var errors := head + block + tail;
    OrphanErrorsCapped(orphans);
    var shown := if |orphans| <= BrokenReferenceCap then |orphans| else BrokenReferenceCap;
    forall k | 0 <= k < shown
      ensures errors[|head| + k] == ErrorText("Broken reference at " + orphans[k].1 + ": '" + orphans[k].0 + "' not found")
    {
      assert errors[|head| + k] == block[k];
    }
    if |orphans| > BrokenReferenceCap {
      var list := Gather(orphans[..BrokenReferenceCap], BrokenReference);
      BrokenReferencesListed(orphans[..BrokenReferenceCap]);
      assert block == list + [ErrorText("... and " + IntToString(|orphans| - BrokenReferenceCap) + " more broken references")];
      assert errors[|head| + shown] == block[shown];
    }
    assert errors[..|head|] == head;
    assert errors[|head| + |block|..] == tail;
  }

  /** In a run that reaches the designs, the broken references form one
      block of errors: after the study's type error and every design's
      errors, and before the Code errors. */
  lemma BrokenReferenceBlock(data: Json, version: Json)
    requires HasKey(data, "study")
    requires var versions := ArrField(GetOrNull(data, "study"), "versions");
      versions != [] && version == versions[0] && ArrField(version, "studyDesigns") != []
    ensures var designs := ArrField(version, "studyDesigns");
      ErrorLayout(StudyReport(data).errors,
                  StudyTypeErrors(GetOrNull(data, "study")) + AllDesignErrors(designs, |designs|),
                  DocumentOrphans(data), Findings(data, "root", IncompleteCode))
  {
    hide StudyReport, ErrorLayout, OrphanErrors, Findings, DocumentOrphans, AllDesignErrors, StudyTypeErrors;
    var designs := ArrField(version, "studyDesigns");
    var head := StudyTypeErrors(GetOrNull(data, "study")) + AllDesignErrors(designs, |designs|);
    FullReport(data, version);
    OrphanBlock(head, DocumentOrphans(data), Findings(data, "root", IncompleteCode));
  }

  /** The designs' errors vanish exactly when each design's do. */
  lemma {:induction false} AllDesignErrorsEmpty(designs: seq<Json>, n: nat)
    requires n <= |designs|
    ensures AllDesignErrors(designs, n) == [] <==> forall i :: 0 <= i < n ==> DesignErrors(designs[i], i) == []
  {
    hide DesignErrors;
    if n > 0 {
      AllDesignErrorsEmpty(designs, n - 1);
    }
  }

  /** A Code object with all three of its fields set. */
  predicate CodeComplete(j: Json) {
    Truthy(GetOrNull(j, "code")) && Truthy(GetOrNull(j, "codeSystem")) && Truthy(GetOrNull(j, "decode"))
  }

  /** The verdict: a run records no error exactly when the study exists
      with instanceType "Study", its first version has designs, every
      design's linked lists are sound, every reference names an indexed id
      and every Code object is complete. */
  lemma PassingCharacterized(data: Json)
    ensures StudyReport(data).errors == [] <==>
      && HasKey(data, "study")
      && GetOrNull(GetOrNull(data, "study"), "instanceType") == JStr("Study")
      && DesignsOf(data) != []
      && (forall i :: 0 <= i < |DesignsOf(data)| ==> DesignErrors(DesignsOf(data)[i], i) == [])
      && (forall r :: r in Refs(data, "root") ==> JStr(r.0) in IdIndex(Nodes(data, "root")))
      && (forall n :: n in Nodes(data, "root") && IsCode(n.value) ==> CodeComplete(n.value))
  {
    hide StudyReport, AllDesignErrors, AllDesignWarnings, DesignErrors, OrphanErrors, Findings, VersionWarnings;
    if HasKey(data, "study") {
      var versions := ArrField(GetOrNull(data, "study"), "versions");
      if versions == [] {
        NoVersionsReport(data);
      } else if ArrField(versions[0], "studyDesigns") == [] {
        NoDesignsReport(data, versions[0]);
      } else {
        var designs := ArrField(versions[0], "studyDesigns");
        FullReport(data, versions[0]);
        AllDesignErrorsEmpty(designs, |designs|);
        OrphanErrorsCapped(DocumentOrphans(data));
        CodeObjectsComplete(data, "root");
        var refs := Refs(data, "root");
        var orphans := DocumentOrphans(data);
        assert orphans == [] <==> forall r :: r in refs ==> JStr(r.0) in IdIndex(Nodes(data, "root")) by {
          if orphans != [] {
            assert orphans[0] in orphans;
          }
        }
      }
    } else {
      NoStudyReport(data);
    }
  }

  /** In a run that passes, every reference is the id of some value in the
      document, and that value sits at the path the index records. */
  lemma PassingReferencesResolve(data: Json, r: Ref)
    requires StudyReport(data).errors == []
    requires r in Refs(data, "root")
    ensures exists n :: n in Nodes(data, "root") && HasId(n.value) && IdOf(n.value) == JStr(r.0)
  {
    PassingCharacterized(data);
    IdIndexLast(Nodes(data, "root"), JStr(r.0));
    var i :| 0 <= i < |Nodes(data, "root")| && HasId(Nodes(data, "root")[i].value)
      && IdOf(Nodes(data, "root")[i].value) == JStr(r.0);
    assert Nodes(data, "root")[i] in Nodes(data, "root");
  }

  /** The only informational message recorded is the cross-reference
      summary, and it appears exactly when the run reaches the
      cross-reference check and finds nothing broken. */
  lemma InfoOnlyWhenAllResolve(data: Json)
    ensures |StudyReport(data).info| <= 1
    ensures StudyReport(data).info != [] <==> DesignsOf(data) != [] && DocumentOrphans(data) == []
  {
    hide StudyReport, AllDesignErrors, AllDesignWarnings, OrphanErrors, Findings, VersionWarnings, DocumentOrphans;
    if HasKey(data, "study") {
      var versions := ArrField(GetOrNull(data, "study"), "versions");
      if versions == [] {
        NoVersionsReport(data);
      } else if ArrField(versions[0], "studyDesigns") == [] {
        NoDesignsReport(data, versions[0]);
      } else {
        FullReport(data, versions[0]);
      }
    } else {
      NoStudyReport(data);
    }
  }

  // ================================================================ the method

  /** `validate_study` (usdm_validator.py:175-406). */
  method ValidateStudy(data: Json) returns (result: ValidationResult)
    requires StudyKeyed(data)
    ensures fresh(result)
    ensures Report(result.errors, result.warnings, result.info) == StudyReport(data)
  {
    // Only the shape of the report matters here; its parts are matched, not unfolded.
    hide StudyReport, VersionWarnings, AllDesignWarnings, AllDesignErrors, DocumentOrphans, Findings, Refs,
      OrphanErrors, CrossReferenceInfo;
    result := new ValidationResult();
    CheckEnvelope(data, result);
    assert result.warnings == EnvelopeWarnings(data) && result.info == [];
    if !HasKey(data, "study") {
      result.Error("Missing root 'study' object");
      NoStudyReport(data);
      return;
    }
    var study := GetOrNull(data, "study");
    if GetOrNull(study, "instanceType") != JStr("Study") {
      result.Error("Study instanceType should be 'Study', got '" + PyStr(GetOrNull(study, "instanceType")) + "'");
    }
    assert result.errors == StudyTypeErrors(study);
    var versions := ArrField(study, "versions");
    if |versions| == 0 {
      result.Error("Study has no 'versions' array (required in v4.0.0)");
      NoVersionsReport(data);
      return;
    }
    var version := versions[0];
    CheckVersion(version, result);
    var designs := ArrField(version, "studyDesigns");
    if |designs| == 0 {
      result.Error("Version has no studyDesigns");
      NoDesignsReport(data, version);
      return;
    }
    assert designs == DesignsOf(data);
    CheckContents(data, designs, result);
    assert [] + CrossReferenceInfo(DocumentOrphans(data), Refs(data, "root"))
      == CrossReferenceInfo(DocumentOrphans(data), Refs(data, "root"));
    FullReport(data, version);
  }

  /** Every design's checks, then the document-wide checks. */
  method CheckContents(data: Json, designs: seq<Json>, result: ValidationResult)
    requires forall i :: 0 <= i < |designs| ==> DesignKeyed(designs[i])
    modifies result
    ensures result.errors == old(result.errors) + AllDesignErrors(designs, |designs|)
      + OrphanErrors(DocumentOrphans(data)) + Findings(data, "root", IncompleteCode)
    ensures result.warnings == old(result.warnings) + AllDesignWarnings(designs, |designs|)
      + Findings(data, "root", MissingInstanceType) + Findings(data, "root", MissingExtensionAttributes)
    ensures result.info == old(result.info) + CrossReferenceInfo(DocumentOrphans(data), Refs(data, "root"))
  {
    CheckDesigns(designs, result);
    CheckDocument(data, result);
  }

  /** Records the warning when `c` holds. */
  method WarnWhen(c: bool, msg: string, result: ValidationResult)
    modifies result
    ensures result.warnings == old(result.warnings) + WarnIf(c, msg)
    ensures result.errors == old(result.errors) && result.info == old(result.info)
  {
    if c {
      result.Warning(msg);
    }
  }

  /** The envelope checks of usdm_validator.py:180-190. */
  method CheckEnvelope(data: Json, result: ValidationResult)
    modifies result
    ensures result.warnings == old(result.warnings) + EnvelopeWarnings(data)
    ensures result.errors == old(result.errors) && result.info == old(result.info)
  {
    ghost var w0 := result.warnings;
    var a := WarnIf(!Truthy(GetOrNull(data, "usdmVersion")), "Missing root 'usdmVersion' field");
    WarnWhen(!Truthy(GetOrNull(data, "usdmVersion")), "Missing root 'usdmVersion' field", result);
    WarnWhen(!Truthy(GetOrNull(data, "systemName")), "Missing root 'systemName' field", result);
    AppendAssoc(w0, a, WarnIf(!Truthy(GetOrNull(data, "systemName")), "Missing root 'systemName' field"));
  }

  /** The identifier and title checks of usdm_validator.py:211-231. */
  method CheckVersion(version: Json, result: ValidationResult)
    modifies result
    ensures result.warnings == old(result.warnings) + VersionWarnings(version)
    ensures result.errors == old(result.errors) && result.info == old(result.info)
  {
    hide PerItem, IdentifierWarnings;
    var identifiers := ArrField(version, "studyIdentifiers");
    if |identifiers| == 0 {
      result.Warning("Version has no studyIdentifiers");
    } else {
      CheckIdentifiers(identifiers, result);
    }
    ghost var a := if identifiers == [] then [WarningText("Version has no studyIdentifiers")]
                   else PerItem(identifiers, "", IdentifierWarnings);
    ghost var b := WarnIf(ArrField(version, "titles") == [], "Version has no titles (expected StudyTitle objects)");
    WarnWhen(ArrField(version, "titles") == [], "Version has no titles (expected StudyTitle objects)", result);
    AppendAssoc(old(result.warnings), a, b);
  }

  /** `for sid in identifiers` (usdm_validator.py:218-222). */
  method CheckIdentifiers(identifiers: seq<Json>, result: ValidationResult)
    modifies result
    ensures result.warnings == old(result.warnings) + PerItem(identifiers, "", IdentifierWarnings)
    ensures result.errors == old(result.errors) && result.info == old(result.info)
  {
    hide IdentifierWarnings;
    for i := 0 to |identifiers|
      invariant result.warnings == old(result.warnings) + PerItem(identifiers[..i], "", IdentifierWarnings)
      invariant result.errors == old(result.errors) && result.info == old(result.info)
    {
      PerItemStep(identifiers, i, "", IdentifierWarnings);
      CheckIdentifier(identifiers[i], result);
      AppendAssoc(old(result.warnings), PerItem(identifiers[..i], "", IdentifierWarnings),
                  IdentifierWarnings("", identifiers[i]));
    }
    assert identifiers[..|identifiers|] == identifiers;
  }

  method CheckIdentifier(sid: Json, result: ValidationResult)
    modifies result
    ensures result.warnings == old(result.warnings) + IdentifierWarnings("", sid)
    ensures result.errors == old(result.errors) && result.info == old(result.info)
  {
    ghost var a := WarnIf(HasKey(sid, "studyIdentifier"), "StudyIdentifier uses legacy 'studyIdentifier' field; should use 'text'");
    WarnWhen(HasKey(sid, "studyIdentifier"), "StudyIdentifier uses legacy 'studyIdentifier' field; should use 'text'", result);
    WarnWhen(HasKey(sid, "studyIdentifierScope"), "StudyIdentifier uses legacy 'studyIdentifierScope'; should use 'scopeId'", result);
    AppendAssoc(old(result.warnings), a,
      WarnIf(HasKey(sid, "studyIdentifierScope"), "StudyIdentifier uses legacy 'studyIdentifierScope'; should use 'scopeId'"));
  }

  /** The loop over the designs (usdm_validator.py:246-374). */
  method CheckDesigns(designs: seq<Json>, result: ValidationResult)
    requires forall i :: 0 <= i < |designs| ==> DesignKeyed(designs[i])
    modifies result
    ensures result.warnings == old(result.warnings) + AllDesignWarnings(designs, |designs|)
    ensures result.errors == old(result.errors) + AllDesignErrors(designs, |designs|)
    ensures result.info == old(result.info)
  {
    hide DesignWarnings, DesignErrors;
    for di := 0 to |designs|
      invariant result.warnings == old(result.warnings) + AllDesignWarnings(designs, di)
      invariant result.errors == old(result.errors) + AllDesignErrors(designs, di)
      invariant result.info == old(result.info)
    {
      CheckDesign(designs[di], di, result);
      AppendAssoc(old(result.warnings), AllDesignWarnings(designs, di), DesignWarnings(designs[di], di));
      AppendAssoc(old(result.errors), AllDesignErrors(designs, di), DesignErrors(designs[di], di));
    }
  }

  /** The checks of one design, in source order. */
  method CheckDesign(design: Json, di: nat, result: ValidationResult)
    requires DesignKeyed(design)
    modifies result
    ensures result.warnings == old(result.warnings) + DesignWarnings(design, di)
    ensures result.errors == old(result.errors) + DesignErrors(design, di)
    ensures result.info == old(result.info)
  {
    // The groups are matched, not unfolded.
    hide TypeWarnings, ArmWarnings, EpochWarnings, LegacyFieldWarnings, EncounterWarnings,
      LinkedListWarnings, ObjectiveWarnings, PopulationWarnings, CriterionWarnings, LinkedListErrors;
    var p := Prefix(di);
    ghost var w0, e0 := result.warnings, result.errors;
    ghost var w := TypeWarnings(design, p);
    CheckDesignType(design, p, result);
    CheckArms(design, p, result);
    AppendAssoc(w0, w, ArmWarnings(design, p));
    w := w + ArmWarnings(design, p);
    CheckEpochs(design, p, result);
    AppendAssoc(w0, w, EpochWarnings(design, p));
    w := w + EpochWarnings(design, p);
    ghost var e := LinkedListErrors(Epochs(design), p + ".epochs");
    CheckLegacyFields(design, p, result);
    AppendAssoc(w0, w, LegacyFieldWarnings(design, p));
    w := w + LegacyFieldWarnings(design, p);
    CheckEncounters(design, p, result);
    AppendAssoc(w0, w, EncounterWarnings(design, p));
    w := w + EncounterWarnings(design, p);
    AppendAssoc(e0, e, LinkedListErrors(Encounters(design), p + ".encounters"));
    e := e + LinkedListErrors(Encounters(design), p + ".encounters");
    ValidateLinkedList(Activities(design), p + ".activities", result);
    AppendAssoc(w0, w, LinkedListWarnings(Activities(design), p + ".activities"));
    w := w + LinkedListWarnings(Activities(design), p + ".activities");
    AppendAssoc(e0, e, LinkedListErrors(Activities(design), p + ".activities"));
    e := e + LinkedListErrors(Activities(design), p + ".activities");
    CheckObjectives(design, p, result);
    AppendAssoc(w0, w, ObjectiveWarnings(design, p));
    w := w + ObjectiveWarnings(design, p);
    CheckPopulation(design, p, result);
    AppendAssoc(w0, w, PopulationWarnings(design, p));
    w := w + PopulationWarnings(design, p);
    CheckCriteria(design, p, result);
    AppendAssoc(w0, w, CriterionWarnings(design, p));
    w := w + CriterionWarnings(design, p);
    assert w == DesignWarnings(design, di);
    assert e == DesignErrors(design, di);
  }

  method CheckDesignType(design: Json, p: string, result: ValidationResult)
    modifies result
    ensures result.warnings == old(result.warnings) + TypeWarnings(design, p)
    ensures result.errors == old(result.errors) && result.info == old(result.info)
  {
    var instanceType := StrField(design, "instanceType");
    if instanceType == "StudyDesign" {
      result.Warning(p + ": instanceType is 'StudyDesign'; should be 'InterventionalStudyDesign' (or other subtype)");
    } else if !Contains(instanceType, "StudyDesign") {
      result.Warning(p + ": unexpected instanceType '" + instanceType + "'");
    }
  }

  method CheckArms(design: Json, p: string, result: ValidationResult)
    modifies result
    ensures result.warnings == old(result.warnings) + ArmWarnings(design, p)
    ensures result.errors == old(result.errors) && result.info == old(result.info)
  {
    var arms := Arms(design);
    ghost var a := WarnIf(Legacy(design, "studyArms", "arms"), p + ": Uses legacy 'studyArms'; should use 'arms'");
    ghost var b := WarnIf(Arms(design) == [], p + ": No arms defined");
    WarnWhen(Legacy(design, "studyArms", "arms"), p + ": Uses legacy 'studyArms'; should use 'arms'", result);
    WarnWhen(arms == [], p + ": No arms defined", result);
    AppendAssoc(old(result.warnings), a, b);
    ghost var w1 := result.warnings;
    for i := 0 to |arms|
      invariant result.warnings == w1 + PerItem(arms[..i], p, ArmTypeWarning)
      invariant result.errors == old(result.errors) && result.info == old(result.info)
    {
      PerItemStep(arms, i, p, ArmTypeWarning);
      if HasKey(arms[i], "armType") {
        result.Warning(p + ": Arm uses legacy 'armType'; should use 'type'");
      }
      AppendAssoc(w1, PerItem(arms[..i], p, ArmTypeWarning), ArmTypeWarning(p, arms[i]));
    }
    assert arms[..|arms|] == arms;
    AppendAssoc(old(result.warnings), a + b, PerItem(arms, p, ArmTypeWarning));
  }

  method CheckEpochs(design: Json, p: string, result: ValidationResult)
    requires LinksKeyed(Epochs(design))
    modifies result
    ensures result.warnings == old(result.warnings) + EpochWarnings(design, p)
    ensures result.errors == old(result.errors) + LinkedListErrors(Epochs(design), p + ".epochs")
    ensures result.info == old(result.info)
  {
    hide LinkedListWarnings, LinkedListErrors, AnyHasKey;
    var epochs := Epochs(design);
    ghost var w0 := result.warnings;
    ghost var a := WarnIf(Legacy(design, "studyEpochs", "epochs"), p + ": Uses legacy 'studyEpochs'; should use 'epochs'");
    ghost var b := WarnIf(epochs == [], p + ": No epochs defined");
    ghost var c := LinkedListWarnings(epochs, p + ".epochs");
    WarnWhen(Legacy(design, "studyEpochs", "epochs"), p + ": Uses legacy 'studyEpochs'; should use 'epochs'", result);
    WarnWhen(epochs == [], p + ": No epochs defined", result);
    AppendAssoc(w0, a, b);
    ValidateLinkedList(epochs, p + ".epochs", result);
    AppendAssoc(w0, a + b, c);
    var sequenced := AnySequenced(epochs);
    ghost var d := WarnIf(AnyHasKey(epochs, "sequenceNumber"),
                          p + ": Epochs use legacy 'sequenceNumber'; should use previousId/nextId linked list");
    WarnWhen(sequenced, p + ": Epochs use legacy 'sequenceNumber'; should use previousId/nextId linked list", result);
    AppendAssoc(w0, a + b + c, d);
  }

  /** `any("sequenceNumber" in e for e in epochs)`. */
  method AnySequenced(epochs: seq<Json>) returns (sequenced: bool)
    ensures sequenced == AnyHasKey(epochs, "sequenceNumber")
  {
    sequenced := false;
    for i := 0 to |epochs|
      invariant sequenced <==> exists j :: 0 <= j < i && HasKey(epochs[j], "sequenceNumber")
    {
      if HasKey(epochs[i], "sequenceNumber") {
        sequenced := true;
      }
    }
  }

  method CheckLegacyFields(design: Json, p: string, result: ValidationResult)
    modifies result
    ensures result.warnings == old(result.warnings) + LegacyFieldWarnings(design, p)
    ensures result.errors == old(result.errors) && result.info == old(result.info)
  {
    ghost var w0 := result.warnings;
    ghost var a := WarnIf(Legacy(design, "studyElements", "elements"), p + ": Uses legacy 'studyElements'; should use 'elements'");
    ghost var b := WarnIf(Legacy(design, "interventionModel", "model"), p + ": Uses legacy 'interventionModel'; should use 'model'");
    ghost var c := WarnIf(Legacy(design, "trialIntentTypes", "intentTypes"), p + ": Uses legacy 'trialIntentTypes'; should use 'intentTypes'");
    ghost var d := WarnIf(Legacy(design, "trialTypes", "subTypes"), p + ": Uses legacy 'trialTypes'; should use 'subTypes'");
    WarnWhen(Legacy(design, "studyElements", "elements"), p + ": Uses legacy 'studyElements'; should use 'elements'", result);
    WarnWhen(Legacy(design, "interventionModel", "model"), p + ": Uses legacy 'interventionModel'; should use 'model'", result);
    AppendAssoc(w0, a, b);
    WarnWhen(Legacy(design, "trialIntentTypes", "intentTypes"), p + ": Uses legacy 'trialIntentTypes'; should use 'intentTypes'", result);
    AppendAssoc(w0, a + b, c);
    WarnWhen(Legacy(design, "trialTypes", "subTypes"), p + ": Uses legacy 'trialTypes'; should use 'subTypes'", result);
    AppendAssoc(w0, a + b + c, d);
  }

  method CheckEncounters(design: Json, p: string, result: ValidationResult)
    requires LinksKeyed(Encounters(design))
    modifies result
    ensures result.warnings == old(result.warnings) + EncounterWarnings(design, p)
    ensures result.errors == old(result.errors) + LinkedListErrors(Encounters(design), p + ".encounters")
    ensures result.info == old(result.info)
  {
    var encounters := Encounters(design);
    ValidateLinkedList(encounters, p + ".encounters", result);
    ghost var w1 := result.warnings;
    for i := 0 to |encounters|
      invariant result.warnings == w1 + PerItem(encounters[..i], p, EncounterTypeWarning)
      invariant result.errors == old(result.errors) + LinkedListErrors(encounters, p + ".encounters")
      invariant result.info == old(result.info)
    {
      PerItemStep(encounters, i, p, EncounterTypeWarning);
      if HasKey(encounters[i], "encounterType") {
        result.Warning(p + ": Encounter uses legacy 'encounterType'; should use 'type'");
      }
      AppendAssoc(w1, PerItem(encounters[..i], p, EncounterTypeWarning), EncounterTypeWarning(p, encounters[i]));
    }
    assert encounters[..|encounters|] == encounters;
    AppendAssoc(old(result.warnings), LinkedListWarnings(encounters, p + ".encounters"),
                PerItem(encounters, p, EncounterTypeWarning));
  }

  /** The primary objectives, collected as the list comprehension does. */
  method PrimaryObjectives(objectives: seq<Json>) returns (primary: seq<Json>)
    ensures primary == Primary(objectives)
  {
    primary := [];
    for i := 0 to |objectives|
      invariant primary == Primary(objectives[..i])
    {
      assert objectives[..i + 1][..i] == objectives[..i];
      if Contains(Lower(DecodeOf(objectives[i], "level")), "primary") {
        primary := primary + [objectives[i]];
      }
    }
    assert objectives[..|objectives|] == objectives;
  }

  method CheckObjectives(design: Json, p: string, result: ValidationResult)
    modifies result
    ensures result.warnings == old(result.warnings) + ObjectiveWarnings(design, p)
    ensures result.errors == old(result.errors) && result.info == old(result.info)
  {
    hide Primary, PerItem;
    var objectives := ArrField(design, "objectives");
    var primary := PrimaryObjectives(objectives);
    ghost var w0 := result.warnings;
    ghost var a := WarnIf(Primary(objectives) == [], p + ": No primary objective defined");
    ghost var b := WarnIf(Truthy(GetOrNull(design, "endpoints")),
      p + ": Has design-level 'endpoints[]'; in v4.0.0 endpoints should be embedded in objectives");
    WarnWhen(primary == [], p + ": No primary objective defined", result);
    WarnWhen(Truthy(GetOrNull(design, "endpoints")),
      p + ": Has design-level 'endpoints[]'; in v4.0.0 endpoints should be embedded in objectives", result);
    AppendAssoc(w0, a, b);
    CheckEndpointIds(objectives, p, result);
    AppendAssoc(w0, a + b, PerItem(objectives, p, EndpointIdsWarning));
  }

  /** `for obj in objectives` (usdm_validator.py:334-336). */
  method CheckEndpointIds(objectives: seq<Json>, p: string, result: ValidationResult)
    modifies result
    ensures result.warnings == old(result.warnings) + PerItem(objectives, p, EndpointIdsWarning)
    ensures result.errors == old(result.errors) && result.info == old(result.info)
  {
    for i := 0 to |objectives|
      invariant result.warnings == old(result.warnings) + PerItem(objectives[..i], p, EndpointIdsWarning)
      invariant result.errors == old(result.errors) && result.info == old(result.info)
    {
      PerItemStep(objectives, i, p, EndpointIdsWarning);
      if Truthy(GetOrNull(objectives[i], "endpointIds")) {
        result.Warning(p + ": Objective uses legacy 'endpointIds'; endpoints should be embedded directly");
      }
      AppendAssoc(old(result.warnings), PerItem(objectives[..i], p, EndpointIdsWarning), EndpointIdsWarning(p, objectives[i]));
    }
    assert objectives[..|objectives|] == objectives;
  }

  method CheckPopulation(design: Json, p: string, result: ValidationResult)
    modifies result
    ensures result.warnings == old(result.warnings) + PopulationWarnings(design, p)
    ensures result.errors == old(result.errors) && result.info == old(result.info)
  {
    var population := GetOrNull(design, "population");
    var populations := Get(design, "populations", JArr([]));
    ghost var a := WarnIf(Truthy(populations) && !Truthy(population),
      p + ": Uses legacy 'populations[]' array; should use singular 'population'");
    WarnWhen(Truthy(populations) && !Truthy(population),
      p + ": Uses legacy 'populations[]' array; should use singular 'population'", result);
    WarnWhen(!Truthy(population), p + ": No population defined", result);
    AppendAssoc(old(result.warnings), a, WarnIf(!Truthy(population), p + ": No population defined"));
  }

  method CheckCriteria(design: Json, p: string, result: ValidationResult)
    modifies result
    ensures result.warnings == old(result.warnings) + CriterionWarnings(design, p)
    ensures result.errors == old(result.errors) && result.info == old(result.info)
  {
    hide PerItem;
    var criteria := ArrField(design, "eligibilityCriteria");
    CheckInlineText(criteria, p, result);
    ghost var a := PerItem(criteria, p, InlineTextWarning);
    WarnWhen(Truthy(GetOrNull(design, "studyInterventions")),
      p + ": Has design-level 'studyInterventions'; should be at version level", result);
    AppendAssoc(old(result.warnings), a, WarnIf(Truthy(GetOrNull(design, "studyInterventions")),
      p + ": Has design-level 'studyInterventions'; should be at version level"));
  }

  /** `for crit in criteria` (usdm_validator.py:362-364). */
  method CheckInlineText(criteria: seq<Json>, p: string, result: ValidationResult)
    modifies result
    ensures result.warnings == old(result.warnings) + PerItem(criteria, p, InlineTextWarning)
    ensures result.errors == old(result.errors) && result.info == old(result.info)
  {
    for i := 0 to |criteria|
      invariant result.warnings == old(result.warnings) + PerItem(criteria[..i], p, InlineTextWarning)
      invariant result.errors == old(result.errors) && result.info == old(result.info)
    {
      PerItemStep(criteria, i, p, InlineTextWarning);
      var criterion := criteria[i];
      if Truthy(GetOrNull(criterion, "text")) && !Truthy(GetOrNull(criterion, "criterionItemId")) {
        result.Warning(p + ": Criterion uses legacy inline 'text'; should use criterionItemId");
      }
      AppendAssoc(old(result.warnings), PerItem(criteria[..i], p, InlineTextWarning), InlineTextWarning(p, criterion));
    }
    assert criteria[..|criteria|] == criteria;
  }

  /** The document-wide checks of usdm_validator.py:384-404. */
  method CheckDocument(data: Json, result: ValidationResult)
    modifies result
    ensures result.errors == old(result.errors) + OrphanErrors(DocumentOrphans(data))
      + Findings(data, "root", IncompleteCode)
    ensures result.warnings == old(result.warnings) + Findings(data, "root", MissingInstanceType)
      + Findings(data, "root", MissingExtensionAttributes)
    ensures result.info == old(result.info) + CrossReferenceInfo(DocumentOrphans(data), Refs(data, "root"))
  {
    var allIds := CollectIds(data, "root");
    var allRefs := CollectReferences(data, "root");
    var orphans := FindOrphans(allRefs, allIds);
    ReportOrphans(orphans, |allRefs|, result);
    ValidateInstanceTypes(data, "root", result);
    ValidateExtensionAttributes(data, "root", result);
    ValidateCodeObjects(data, "root", result);
  }

  /** The references whose id is not an indexed id (usdm_validator.py:388). */
  method FindOrphans(refs: seq<Ref>, ids: map<Json, string>) returns (orphans: seq<Ref>)
    ensures orphans == Orphans(refs, ids)
  {
    orphans := [];
    for i := 0 to |refs|
      invariant orphans == Orphans(refs[..i], ids)
    {
      assert refs[..i + 1][..i] == refs[..i];
      if JStr(refs[i].0) !in ids {
        orphans := orphans + [refs[i]];
      }
    }
    assert refs[..|refs|] == refs;
  }

  /** Capped broken-reference reporting (usdm_validator.py:388-395). */
  method ReportOrphans(orphans: seq<Ref>, refCount: nat, result: ValidationResult)
    modifies result
    ensures result.errors == old(result.errors) + OrphanErrors(orphans)
    ensures |orphans| == 0 ==> result.info == old(result.info) + [InfoText("All " + NatToString(refCount) + " cross-references are valid")]
    ensures |orphans| > 0 ==> result.info == old(result.info)
    ensures result.warnings == old(result.warnings)
  {
    if |orphans| > 0 {
      var shown := if |orphans| <= BrokenReferenceCap then orphans else orphans[..BrokenReferenceCap];
      for i := 0 to |shown|
        invariant result.errors == old(result.errors) + Gather(shown[..i], BrokenReference)
        invariant result.info == old(result.info) && result.warnings == old(result.warnings)
      {
        assert shown[..i + 1][..i] == shown[..i];
        var (refId, path) := shown[i];
        result.Error("Broken reference at " + path + ": '" + refId + "' not found");
        AppendAssoc(old(result.errors), Gather(shown[..i], BrokenReference), BrokenReference(shown[i]));
      }
      assert shown[..|shown|] == shown;
      ghost var g := Gather(shown, BrokenReference);
      if |orphans| > BrokenReferenceCap {
        result.Error("... and " + IntToString(|orphans| - BrokenReferenceCap) + " more broken references");
        AppendAssoc(old(result.errors), g,
                    [ErrorText("... and " + IntToString(|orphans| - BrokenReferenceCap) + " more broken references")]);
      }
    } else {
      result.AddInfo("All " + NatToString(refCount) + " cross-references are valid");
    }
  }
}
