/**
 * The SDTM Trial Design datasets derived from a USDM document, each as the
 * list of its rows: TA (the elements each arm passes through, epoch by
 * epoch), TE (the elements), TI (the inclusion and exclusion criteria), TV
 * (the visits, in encounter order) and TS (nine trial summary parameters).
 *
 * Each generator is `None` where the script raises: a document without a
 * first version and design, a list it indexes by `id` with an item that
 * has none, or an enrollment bound it cannot convert to an integer.
 */
module SdtmTrialDesign {
  import opened Wrappers
  import opened PyText
  import opened Json
  import opened UsdmUtils

  // ================================================================ codes

  /** `s.replace(" ", "").replace("-", "").replace("/", "")`. */
  function Squeeze(s: string): string {
    RemoveAll(RemoveAll(RemoveAll(s, ' '), '-'), '/')
  }

  /** `make_code`: the name in upper case, without spaces, hyphens and
      slashes, cut to `maxLen` characters. */
  function MakeCode(name: string, maxLen: int): string {
    SliceTo(Squeeze(Upper(name)), maxLen)
  }

  /** A character a code may hold: no separator and no lower-case letter. */
  predicate CodeChar(c: char) {
    c != ' ' && c != '-' && c != '/' && UpperChar(c) == c
  }

  /** A code is at most `maxLen` long, holds only code characters, and is
      cut from the squeezed upper-case name, all of which it keeps when it
      fits. */
  lemma MakeCodeShape(name: string, maxLen: int)
    ensures maxLen >= 0 ==> |MakeCode(name, maxLen)| <= maxLen
    ensures forall c :: c in MakeCode(name, maxLen) ==> CodeChar(c)
    ensures MakeCode(name, maxLen) <= Squeeze(Upper(name))
    ensures |Squeeze(Upper(name))| <= maxLen ==> MakeCode(name, maxLen) == Squeeze(Upper(name))
  {
    var up := Upper(name);
    var s := Squeeze(up);
    var r := MakeCode(name, maxLen);
    forall c | c in r ensures CodeChar(c) {
      var i :| 0 <= i < |r| && r[i] == c;
      assert s[i] == c;
      assert c in up;
      var j :| 0 <= j < |up| && up[j] == c;
      assert c == UpperChar(name[j]);
    }
  }

  /** Making a code of a code gives the same code back. */
  lemma MakeCodeIdempotent(name: string, maxLen: int)
    requires maxLen >= 0
    ensures MakeCode(MakeCode(name, maxLen), maxLen) == MakeCode(name, maxLen)
  {
    var r := MakeCode(name, maxLen);
    MakeCodeShape(name, maxLen);
    assert Upper(r) == r by {
      forall i | 0 <= i < |r| ensures Upper(r)[i] == r[i] {
        assert CodeChar(r[i]);
      }
    }
    RemoveAllAbsent(r, ' ');
    RemoveAllAbsent(r, '-');
    RemoveAllAbsent(r, '/');
  }

  /** `x.get("label", x.get("name", ""))`: how a row names an object. */
  function LabelOf(x: Json): Json {
    Get(x, "label", Get(x, "name", JStr("")))
  }

  /** `study_id = get_study_id(version)`, with its default organization type. */
  function StudyIdOf(version: Json): Json {
    GetStudyId(version, "Drug Company")
  }

  // ================================================================ TA

  datatype TaRow = TaRow(
    studyId: Json, domain: string, armCd: string, arm: Json, taetord: nat,
    etCd: string, element: Json, taBranch: string, taTrans: string, epoch: Json)

  /** One TA row: the `taetord`-th element of `arm`, met in `epoch`. */
  function TaRowOf(studyId: Json, arm: Json, taetord: nat, epoch: Json, elem: Json): TaRow {
    TaRow(studyId, "TA", MakeCode(StrField(arm, "name"), 20), LabelOf(arm), taetord,
          MakeCode(StrField(elem, "name"), 8), LabelOf(elem), "", "", LabelOf(epoch))
  }

  /** `elements.get(elem_id, {})`. */
  function ElementOf(byId: map<Json, Json>, elemId: Json): Json {
    if elemId in byId then byId[elemId] else EmptyObj
  }

  /** A cell placing arm `armId` in epoch `epochId`. */
  predicate InCell(cell: Json, armId: Json, epochId: Json) {
    GetOrNull(cell, "armId") == armId && GetOrNull(cell, "epochId") == epochId
  }

  /** `matching_cells`: the cells of an arm and an epoch, in order. */
  function MatchingCells(cells: seq<Json>, armId: Json, epochId: Json): (r: seq<Json>)
    ensures forall c :: c in r <==> c in cells && InCell(c, armId, epochId)
  {
    if cells == [] then []
    else
      var init := cells[..|cells| - 1];
      assert cells == init + [cells[|cells| - 1]];
      var m := MatchingCells(init, armId, epochId);
      if InCell(cells[|cells| - 1], armId, epochId) then m + [cells[|cells| - 1]] else m
  }

  /** A place in an arm's path: an element id met in an epoch. */
  datatype Slot = Slot(epoch: Json, elementId: Json)

  /** The slots of one cell's `elementIds`, in order. */
  function ElementSlots(epoch: Json, ids: seq<Json>): seq<Slot> {
    seq(|ids|, k requires 0 <= k < |ids| => Slot(epoch, ids[k]))
  }

  /** The slots of several cells of one epoch, cell by cell. */
  function CellSlots(epoch: Json, cells: seq<Json>): seq<Slot> {
    if cells == [] then []
    else CellSlots(epoch, cells[..|cells| - 1]) + ElementSlots(epoch, ArrField(cells[|cells| - 1], "elementIds"))
  }

  /** The slots of one arm: its matching cells, epoch by epoch. */
  function ArmSlots(armId: Json, epochs: seq<Json>, cells: seq<Json>): seq<Slot> {
    if epochs == [] then []
    else
      var epoch := epochs[|epochs| - 1];
      ArmSlots(armId, epochs[..|epochs| - 1], cells) + CellSlots(epoch, MatchingCells(cells, armId, IdOf(epoch)))
  }

  /** The rows of an arm's slots, numbered from 1 in slot order. */
  function SlotRows(studyId: Json, arm: Json, byId: map<Json, Json>, slots: seq<Slot>): seq<TaRow> {
    if slots == [] then []
    else
      var last := slots[|slots| - 1];
      SlotRows(studyId, arm, byId, slots[..|slots| - 1])
      + [TaRowOf(studyId, arm, |slots|, last.epoch, ElementOf(byId, last.elementId))]
  }

  function ArmRows(studyId: Json, arm: Json, epochs: seq<Json>, cells: seq<Json>, byId: map<Json, Json>): seq<TaRow> {
    SlotRows(studyId, arm, byId, ArmSlots(IdOf(arm), epochs, cells))
  }

  /** The TA rows: arm by arm. */
  function TaRows(studyId: Json, arms: seq<Json>, epochs: seq<Json>, cells: seq<Json>, byId: map<Json, Json>): seq<TaRow> {
    if arms == [] then []
    else TaRows(studyId, arms[..|arms| - 1], epochs, cells, byId) + ArmRows(studyId, arms[|arms| - 1], epochs, cells, byId)
  }

  function TaArms(design: Json): seq<Json> { ListOr(design, "arms", "studyArms") }
  function TaEpochs(design: Json): seq<Json> { ListOr(design, "epochs", "studyEpochs") }
  function TaElements(design: Json): seq<Json> { ListOr(design, "elements", "studyElements") }

  /** `generate_ta`: the epochs in linked order, the elements indexed by
      id (a later duplicate wins); `None` where an epoch, an element or
      an arm has no `id`. */
  function TaTable(data: Json): Option<seq<TaRow>> {
    match GetVersionAndDesign(data)
    case None => None
    case Some((version, design)) =>
      if !Keyed(TaEpochs(design)) || !Keyed(TaElements(design)) || !Keyed(TaArms(design)) then None
      else Some(TaRows(StudyIdOf(version), TaArms(design), SortLinked(TaEpochs(design)),
                       ArrField(design, "studyCells"), ById(TaElements(design))))
  }

  /** The rows of an arm are its slots, in order, numbered 1, 2, 3, ... */
  lemma {:induction false} SlotRowsNumbered(studyId: Json, arm: Json, byId: map<Json, Json>, slots: seq<Slot>)
    ensures |SlotRows(studyId, arm, byId, slots)| == |slots|
    ensures forall k :: 0 <= k < |slots| ==>
      SlotRows(studyId, arm, byId, slots)[k]
        == TaRowOf(studyId, arm, k + 1, slots[k].epoch, ElementOf(byId, slots[k].elementId))
  {
    hide TaRowOf, ElementOf;
    if slots != [] {
      var init := slots[..|slots| - 1];
      SlotRowsNumbered(studyId, arm, byId, init);
      forall k | 0 <= k < |init| ensures init[k] == slots[k] { }
    }
  }

  /** The number of element ids in some cells. */
  function ElementCount(cells: seq<Json>): nat {
    if cells == [] then 0
    else ElementCount(cells[..|cells| - 1]) + |ArrField(cells[|cells| - 1], "elementIds")|
  }

  /** The number of element ids an arm's matching cells hold, over all epochs. */
  function ArmElementCount(armId: Json, epochs: seq<Json>, cells: seq<Json>): nat {
    if epochs == [] then 0
    else
      var epoch := epochs[|epochs| - 1];
      ArmElementCount(armId, epochs[..|epochs| - 1], cells) + ElementCount(MatchingCells(cells, armId, IdOf(epoch)))
  }

  lemma {:induction false} CellSlotsCount(epoch: Json, cells: seq<Json>)
    ensures |CellSlots(epoch, cells)| == ElementCount(cells)
  {
    if cells != [] {
      CellSlotsCount(epoch, cells[..|cells| - 1]);
    }
  }

  /** An arm has one TA row per element id of its matching cells. */
  lemma {:induction false} ArmRowCount(studyId: Json, arm: Json, epochs: seq<Json>, cells: seq<Json>, byId: map<Json, Json>)
    ensures |ArmRows(studyId, arm, epochs, cells, byId)| == ArmElementCount(IdOf(arm), epochs, cells)
  {
    ArmSlotsCount(IdOf(arm), epochs, cells);
    SlotRowsNumbered(studyId, arm, byId, ArmSlots(IdOf(arm), epochs, cells));
  }

  lemma {:induction false} ArmSlotsCount(armId: Json, epochs: seq<Json>, cells: seq<Json>)
    ensures |ArmSlots(armId, epochs, cells)| == ArmElementCount(armId, epochs, cells)
  {
    if epochs != [] {
      var epoch := epochs[|epochs| - 1];
      ArmSlotsCount(armId, epochs[..|epochs| - 1], cells);
      CellSlotsCount(epoch, MatchingCells(cells, armId, IdOf(epoch)));
    }
  }

  lemma {:induction false} TaRowsAppend(studyId: Json, xs: seq<Json>, ys: seq<Json>, epochs: seq<Json>, cells: seq<Json>, byId: map<Json, Json>)
    ensures TaRows(studyId, xs + ys, epochs, cells, byId)
      == TaRows(studyId, xs, epochs, cells, byId) + TaRows(studyId, ys, epochs, cells, byId)
    decreases |ys|
  {
    hide ArmRows;
    if ys == [] {
      assert xs + ys == xs;
    } else {
      var init := ys[..|ys| - 1];
      assert (xs + ys)[..|xs + ys| - 1] == xs + init;
      TaRowsAppend(studyId, xs, init, epochs, cells, byId);
    }
  }

  /** TAETORD restarts at 1 for every arm: the rows of arm `a` follow those
      of the arms before it, and its `k`-th row is its `k`-th slot, with
      TAETORD `k + 1`. */
  lemma TaetordRestarts(studyId: Json, arms: seq<Json>, epochs: seq<Json>, cells: seq<Json>, byId: map<Json, Json>, a: nat, k: nat)
    requires a < |arms|
    requires k < |ArmSlots(IdOf(arms[a]), epochs, cells)|
    ensures var rows := TaRows(studyId, arms, epochs, cells, byId);
      var slot := ArmSlots(IdOf(arms[a]), epochs, cells)[k];
      var at := |TaRows(studyId, arms[..a], epochs, cells, byId)| + k;
      at < |rows| && rows[at] == TaRowOf(studyId, arms[a], k + 1, slot.epoch, ElementOf(byId, slot.elementId))
  {
    assert arms == arms[..a] + [arms[a]] + arms[a + 1..];
    TaRowsAppend(studyId, arms[..a] + [arms[a]], arms[a + 1..], epochs, cells, byId);
    TaRowsAppend(studyId, arms[..a], [arms[a]], epochs, cells, byId);
    assert TaRows(studyId, [arms[a]], epochs, cells, byId) == ArmRows(studyId, arms[a], epochs, cells, byId) by {
      assert [arms[a]][..0] == [];
    }
    SlotRowsNumbered(studyId, arms[a], byId, ArmSlots(IdOf(arms[a]), epochs, cells));
  }

  /** Every TA row belongs to some arm's rows. */
  lemma {:induction false} TaRowsFromArms(studyId: Json, arms: seq<Json>, epochs: seq<Json>, cells: seq<Json>, byId: map<Json, Json>, r: TaRow)
    requires r in TaRows(studyId, arms, epochs, cells, byId)
    ensures exists a :: 0 <= a < |arms| && r in ArmRows(studyId, arms[a], epochs, cells, byId)
  {
    var init := arms[..|arms| - 1];
    if r in TaRows(studyId, init, epochs, cells, byId) {
      TaRowsFromArms(studyId, init, epochs, cells, byId, r);
      var a :| 0 <= a < |init| && r in ArmRows(studyId, init[a], epochs, cells, byId);
      assert init[a] == arms[a];
    } else {
      assert r in ArmRows(studyId, arms[|arms| - 1], epochs, cells, byId);
    }
  }

  // ================================================================ TE

  datatype TeRow = TeRow(
    studyId: Json, domain: string, etCd: string, element: Json,
    teStrl: string, teEnrl: string, teDur: string)

  function TeRowOf(studyId: Json, elem: Json): TeRow {
    TeRow(studyId, "TE", MakeCode(StrField(elem, "name"), 8), LabelOf(elem), "", "", "")
  }

  function TeRows(studyId: Json, elements: seq<Json>): seq<TeRow> {
    seq(|elements|, k requires 0 <= k < |elements| => TeRowOf(studyId, elements[k]))
  }

  /** `generate_te`: one row per element, in order. */
  function TeTable(data: Json): Option<seq<TeRow>> {
    match GetVersionAndDesign(data)
    case None => None
    case Some((version, design)) => Some(TeRows(StudyIdOf(version), TaElements(design)))
  }

  /** The row of a TA element is blank or repeats the code and name of a TE row. */
  predicate ListedInTe(r: TaRow, te: seq<TeRow>) {
    (r.etCd == "" && r.element == JStr(""))
    || exists t :: t in te && t.etCd == r.etCd && t.element == r.element
  }

  /** TA and TE agree: the element code and name of every TA row are those
      of a TE row, except that an element id matching no element leaves both
      blank. */
  lemma TaElementsListedInTe(data: Json)
    requires TaTable(data).Some?
    ensures TeTable(data).Some?
    ensures forall r :: r in TaTable(data).value ==> ListedInTe(r, TeTable(data).value)
  {
    var (version, design) := GetVersionAndDesign(data).value;
    TaRowsListed(StudyIdOf(version), TaArms(design), SortLinked(TaEpochs(design)),
                 ArrField(design, "studyCells"), TaElements(design));
  }

  lemma TaRowsListed(studyId: Json, arms: seq<Json>, epochs: seq<Json>, cells: seq<Json>, elements: seq<Json>)
    ensures forall r :: r in TaRows(studyId, arms, epochs, cells, ById(elements)) ==>
      ListedInTe(r, TeRows(studyId, elements))
  {
    // An element id matching no element gives a blank code and name.
    assert MakeCode(StrField(EmptyObj, "name"), 8) == "" && LabelOf(EmptyObj) == JStr("");
    hide MakeCode, StrField, LabelOf, TaRows;
    var byId := ById(elements);
    var te := TeRows(studyId, elements);
    ByIdValues(elements);
    forall r | r in TaRows(studyId, arms, epochs, cells, byId) ensures ListedInTe(r, te) {
      TaRowsFromArms(studyId, arms, epochs, cells, byId, r);
      var a :| 0 <= a < |arms| && r in ArmRows(studyId, arms[a], epochs, cells, byId);
      var slots := ArmSlots(IdOf(arms[a]), epochs, cells);
      SlotRowsNumbered(studyId, arms[a], byId, slots);
      var k :| 0 <= k < |slots| && SlotRows(studyId, arms[a], byId, slots)[k] == r;
      var id := slots[k].elementId;
      if id in byId {
        var i :| 0 <= i < |elements| && elements[i] == byId[id];
        assert te[i] == TeRowOf(studyId, elements[i]);
      }
    }
  }

  // ================================================================ TI

  datatype TiRow = TiRow(
    studyId: Json, domain: string, ieTestCd: string, ieTest: Json,
    ieCat: string, ieScat: string, tiRl: string, tiVers: string)

  /** `"inclusion" in c.get("category", {}).get("decode", "").lower()`. */
  predicate IsInclusion(c: Json) {
    Contains(Lower(DecodeOf(c, "category")), "inclusion")
  }

  function InclusionCount(cs: seq<Json>): nat {
    if cs == [] then 0
    else InclusionCount(cs[..|cs| - 1]) + if IsInclusion(cs[|cs| - 1]) then 1 else 0
  }

  function ExclusionCount(cs: seq<Json>): nat {
    if cs == [] then 0
    else ExclusionCount(cs[..|cs| - 1]) + if IsInclusion(cs[|cs| - 1]) then 0 else 1
  }

  /** The IETESTCD of the last of the criteria `cs`: numbered among the
      criteria of its own kind so far. */
  function TiCode(cs: seq<Json>): string
    requires cs != []
  {
    if IsInclusion(cs[|cs| - 1]) then "IN" + Pad2(InclusionCount(cs)) else "EX" + Pad2(ExclusionCount(cs))
  }

  /** The row of the last of the criteria `cs`. */
  function TiRowOf(studyId: Json, cs: seq<Json>, items: seq<Json>, clean: Json -> Json): TiRow
    requires cs != []
  {
    var c := cs[|cs| - 1];
    TiRow(studyId, "TI", TiCode(cs),
          GetCriterionText(c, items, clean),
          if IsInclusion(c) then "INCLUSION" else "EXCLUSION",
          "", "", "1")
  }

  function TiRows(studyId: Json, cs: seq<Json>, items: seq<Json>, clean: Json -> Json): seq<TiRow> {
    if cs == [] then []
    else TiRows(studyId, cs[..|cs| - 1], items, clean) + [TiRowOf(studyId, cs, items, clean)]
  }

  /** `generate_ti`; `clean` stands for the tag stripping of a criterion
      item's text. */
  function TiTable(data: Json, clean: Json -> Json): Option<seq<TiRow>> {
    match GetVersionAndDesign(data)
    case None => None
    case Some((version, design)) =>
      Some(TiRows(StudyIdOf(version), ArrField(design, "eligibilityCriteria"),
                  ArrField(version, "eligibilityCriterionItems"), clean))
  }

  /** One row per criterion, in order, the `k`-th numbered among the first
      `k + 1` criteria. */
  lemma {:induction false} TiRowsShape(studyId: Json, cs: seq<Json>, items: seq<Json>, clean: Json -> Json)
    ensures |TiRows(studyId, cs, items, clean)| == |cs|
    ensures forall k :: 0 <= k < |cs| ==> TiRows(studyId, cs, items, clean)[k] == TiRowOf(studyId, cs[..k + 1], items, clean)
  {
    hide TiRowOf;
    if cs != [] {
      var init := cs[..|cs| - 1];
      TiRowsShape(studyId, init, items, clean);
      forall k | 0 <= k < |init|
        ensures TiRows(studyId, cs, items, clean)[k] == TiRowOf(studyId, cs[..k + 1], items, clean)
      {
        assert init[..k + 1] == cs[..k + 1];
      }
      assert cs[..|cs|] == cs;
    }
  }

  /** Every criterion is either an inclusion or an exclusion. */
  lemma {:induction false} CountsCover(cs: seq<Json>)
    ensures InclusionCount(cs) + ExclusionCount(cs) == |cs|
  {
    if cs != [] {
      CountsCover(cs[..|cs| - 1]);
    }
  }

  lemma {:induction false} InclusionCountGrows(cs: seq<Json>, i: nat, j: nat)
    requires i <= j <= |cs|
    ensures InclusionCount(cs[..i]) <= InclusionCount(cs[..j])
    decreases j
  {
    if i < j {
      assert cs[..j][..j - 1] == cs[..j - 1];
      InclusionCountGrows(cs, i, j - 1);
    }
  }

  lemma {:induction false} ExclusionCountGrows(cs: seq<Json>, i: nat, j: nat)
    requires i <= j <= |cs|
    ensures ExclusionCount(cs[..i]) <= ExclusionCount(cs[..j])
    decreases j
  {
    if i < j {
      assert cs[..j][..j - 1] == cs[..j - 1];
      ExclusionCountGrows(cs, i, j - 1);
    }
  }

  /** Two rows never share an IETESTCD: the `IN` and `EX` numbers count
      up separately and two-digit padding is one-to-one. */
  lemma TiCodesDistinct(studyId: Json, cs: seq<Json>, items: seq<Json>, clean: Json -> Json)
    ensures forall i, j :: 0 <= i < j < |TiRows(studyId, cs, items, clean)| ==>
      TiRows(studyId, cs, items, clean)[i].ieTestCd != TiRows(studyId, cs, items, clean)[j].ieTestCd
  {
    hide GetCriterionText;
    var rows := TiRows(studyId, cs, items, clean);
    TiRowsShape(studyId, cs, items, clean);
    forall i, j | 0 <= i < j < |rows| ensures rows[i].ieTestCd != rows[j].ieTestCd {
      TiCodesDiffer(cs, i, j);
    }
  }

  /** The codes of criteria `i` and `j` differ. */
  lemma TiCodesDiffer(cs: seq<Json>, i: nat, j: nat)
    requires i < j < |cs|
    ensures TiCode(cs[..i + 1]) != TiCode(cs[..j + 1])
  {
    hide IsInclusion;
    var p, q := cs[..i + 1], cs[..j + 1];
    assert p[..i] == cs[..i] && p[i] == cs[i];
    assert q[..j] == cs[..j] && q[j] == cs[j];
    var ci, cj := TiCode(p), TiCode(q);
    if IsInclusion(cs[i]) && IsInclusion(cs[j]) {
      InclusionCountGrows(cs, i + 1, j);
      if ci == cj {
        assert Pad2(InclusionCount(p)) == ci[2..] == cj[2..] == Pad2(InclusionCount(q));
        Pad2Injective(InclusionCount(p), InclusionCount(q));
      }
    } else if !IsInclusion(cs[i]) && !IsInclusion(cs[j]) {
      ExclusionCountGrows(cs, i + 1, j);
      if ci == cj {
        assert Pad2(ExclusionCount(p)) == ci[2..] == cj[2..] == Pad2(ExclusionCount(q));
        Pad2Injective(ExclusionCount(p), ExclusionCount(q));
      }
    } else {
      assert ci[0] != cj[0];
    }
  }

  // ================================================================ TV

  datatype TvRow = TvRow(
    studyId: Json, domain: string, visitNum: nat, visit: Json, visitDy: string,
    armCd: string, arm: string, tvStrl: string, tvEnrl: string)

  function TvRowOf(studyId: Json, visitNum: nat, enc: Json): TvRow {
    TvRow(studyId, "TV", visitNum, LabelOf(enc), "", "", "", "", "")
  }

  function TvRows(studyId: Json, ordered: seq<Json>): seq<TvRow> {
    seq(|ordered|, k requires 0 <= k < |ordered| => TvRowOf(studyId, k + 1, ordered[k]))
  }

  /** `generate_tv`: one visit per encounter in linked order, numbered
      from 1; `None` where an encounter has no `id`. */
  function TvTable(data: Json): Option<seq<TvRow>> {
    match GetVersionAndDesign(data)
    case None => None
    case Some((version, design)) =>
      var encounters := ArrField(design, "encounters");
      if !Keyed(encounters) then None
      else Some(TvRows(StudyIdOf(version), SortLinked(encounters)))
  }

  /** With distinct ids, every encounter is a visit exactly once: there are
      as many visits as encounters, each encounter's label names one, and
      the first visit is the head of the chain when there is one. */
  lemma TvVisitsEveryEncounter(studyId: Json, encounters: seq<Json>)
    requires UniqueIds(encounters)
    ensures var rows := TvRows(studyId, SortLinked(encounters));
      && |rows| == |encounters|
      && (forall k :: 0 <= k < |rows| ==> rows[k].visitNum == k + 1)
      && (forall e :: e in encounters ==> exists k :: 0 <= k < |rows| && rows[k].visit == LabelOf(e))
      && (LastHead(encounters).Some? ==> rows[0].visit == LabelOf(encounters[LastHead(encounters).value]))
  {
    hide SortLinked, LabelOf, UniqueIds;
    var ordered := SortLinked(encounters);
    var rows := TvRows(studyId, ordered);
    SortLinkedPermutation(encounters);
    assert |ordered| == |multiset(ordered)| == |multiset(encounters)| == |encounters|;
    forall e | e in encounters ensures exists k :: 0 <= k < |rows| && rows[k].visit == LabelOf(e) {
      assert e in multiset(encounters);
      assert e in ordered;
      var k :| 0 <= k < |ordered| && ordered[k] == e;
      assert rows[k].visit == LabelOf(e);
    }
  }

  // ================================================================ TS

  datatype TsRow = TsRow(
    studyId: Json, domain: string, tsSeq: nat, tsGrpId: string, tsParmCd: string,
    tsParm: string, tsVal: Json, tsValNf: string, tsValCd: string, tsVcdRef: string, tsVcdVer: string)

  /** One trial summary parameter: its code, its value and its name. */
  datatype TsParam = TsParam(code: string, value: Json, name: string)

  /** `design.get("studyPhase", {}).get("standardCode", {}).get("decode", "")`. */
  function PhaseOf(design: Json): Json {
    Get(Get(Get(design, "studyPhase", EmptyObj), "standardCode", EmptyObj), "decode", JStr(""))
  }

  /** The decode of `model` (else of `interventionModel`), "" when that is
      not an object. */
  function InterventionModelOf(design: Json): Json {
    var model := Get(design, "model", Get(design, "interventionModel", EmptyObj));
    if model.JObj? then Get(model, "decode", JStr("")) else JStr("")
  }

  /** The decode of `blindingSchema.standardCode`, "" unless both are objects. */
  function BlindingOf(design: Json): Json {
    var blinding := Get(design, "blindingSchema", EmptyObj);
    if blinding.JObj? then
      var code := Get(blinding, "standardCode", EmptyObj);
      if code.JObj? then Get(code, "decode", JStr("")) else JStr("")
    else JStr("")
  }

  /** `design.get("studyType", {}).get("decode", "")`. */
  function StudyTypeOf(design: Json): Json {
    Get(Get(design, "studyType", EmptyObj), "decode", JStr(""))
  }

  /** The parameter codes, in row order. */
  const TsCodes: seq<string> :=
    ["STUDYID", "TITLE", "TPHASE", "STYPE", "INTMODEL", "NARMS", "PCNT", "RANDOM", "BLIND"]

  /** `params`: the nine parameters, `pcnt` being the planned enrollment. */
  function TsParams(version: Json, design: Json, pcnt: string): seq<TsParam> {
    var armCount := |TaArms(design)|;
    [ TsParam("STUDYID", StudyIdOf(version), "Study Identifier"),
      TsParam("TITLE", GetStudyTitle(version, "Official Study Title"), "Study Title"),
      TsParam("TPHASE", PhaseOf(design), "Trial Phase"),
      TsParam("STYPE", StudyTypeOf(design), "Study Type"),
      TsParam("INTMODEL", InterventionModelOf(design), "Intervention Model"),
      TsParam("NARMS", JStr(NatToString(armCount)), "Number of Arms"),
      TsParam("PCNT", JStr(pcnt), "Planned Number of Subjects"),
      TsParam("RANDOM", JStr(if armCount > 1 then "Y" else "N"), "Trial is Randomized"),
      TsParam("BLIND", BlindingOf(design), "Blinding Schema") ]
  }

  function TsRowOf(studyId: Json, tsSeq: nat, p: TsParam): TsRow {
    TsRow(studyId, "TS", tsSeq, "", p.code, p.name, p.value, "", "", "", "")
  }

  function TsRows(studyId: Json, params: seq<TsParam>): seq<TsRow> {
    seq(|params|, k requires 0 <= k < |params| => TsRowOf(studyId, k + 1, params[k]))
  }

  /** `generate_ts`: one row per parameter, numbered from 1; `None` where
      the planned enrollment does not convert. */
  function TsTable(data: Json): Option<seq<TsRow>> {
    match GetVersionAndDesign(data)
    case None => None
    case Some((version, design)) =>
      match GetEnrollmentNumber(design)
      case None => None
      case Some(pcnt) => Some(TsRows(StudyIdOf(version), TsParams(version, design, pcnt)))
  }

  /** The summary has the nine parameters in their fixed order, numbered 1
      to 9; the number of arms is written out and the trial counts as
      randomized exactly when it has more than one arm. */
  lemma TsSummary(version: Json, design: Json, pcnt: string)
    ensures var rows := TsRows(StudyIdOf(version), TsParams(version, design, pcnt));
      && |rows| == |TsCodes|
      && (forall k :: 0 <= k < |rows| ==> rows[k].tsSeq == k + 1 && rows[k].tsParmCd == TsCodes[k])
      && rows[0].tsVal == StudyIdOf(version)
      && rows[5].tsVal == JStr(NatToString(|TaArms(design)|))
      && rows[6].tsVal == JStr(pcnt)
      && (rows[7].tsVal == JStr("Y") <==> |TaArms(design)| > 1)
  {
    hide StudyIdOf, GetStudyTitle, PhaseOf, StudyTypeOf, InterventionModelOf, BlindingOf, NatToString, TaArms;
  }

  // ================================================================ generators

  /** `generate_ta`. */
  method GenerateTa(data: Json) returns (table: Option<seq<TaRow>>)
    ensures table == TaTable(data)
  {
    hide GetVersionAndDesign, StudyIdOf, SortLinked, ById, ArmRows, TaEpochs, TaElements;
    var found := GetVersionAndDesign(data);
    if found.None? {
      return None;
    }
    var (version, design) := found.value;
    var studyId := StudyIdOf(version);
    var arms := TaArms(design);
    if !Keyed(TaEpochs(design)) {
      return None;
    }
    var epochs := SortLinkedList(TaEpochs(design));
    var cells := ArrField(design, "studyCells");
    if !Keyed(TaElements(design)) {
      return None;
    }
    var elements := IndexById(TaElements(design));
    var rows: seq<TaRow> := [];
    for a := 0 to |arms|
      invariant forall i :: 0 <= i < a ==> HasKey(arms[i], "id")
      invariant rows == TaRows(studyId, arms[..a], epochs, cells, elements)
    {
      if !HasKey(arms[a], "id") {
        return None;
      }
      rows := EmitArm(studyId, arms[a], epochs, cells, elements, rows);
      assert arms[..a + 1][..a] == arms[..a];
    }
    assert arms[..|arms|] == arms;
    return Some(rows);
  }

  /** The rows of one arm, appended to `rows0`; TAETORD counts from 1. */
  method EmitArm(studyId: Json, arm: Json, epochs: seq<Json>, cells: seq<Json>, elements: map<Json, Json>,
                 rows0: seq<TaRow>) returns (rows: seq<TaRow>)
    ensures rows == rows0 + ArmRows(studyId, arm, epochs, cells, elements)
  {
    var armId := IdOf(arm);
    var taetord := 0;
    rows := rows0;
    ghost var slots: seq<Slot> := [];
    for i := 0 to |epochs|
      invariant slots == ArmSlots(armId, epochs[..i], cells)
      invariant taetord == |slots|
      invariant rows == rows0 + SlotRows(studyId, arm, elements, slots)
    {
      var epoch := epochs[i];
      var matching := MatchingCells(cells, armId, IdOf(epoch));
      rows, taetord := EmitCells(studyId, arm, epoch, matching, elements, rows, taetord, rows0, slots);
      slots := slots + CellSlots(epoch, matching);
      assert epochs[..i + 1][..i] == epochs[..i];
    }
    assert epochs[..|epochs|] == epochs;
  }

  /** The rows of the matching cells of one epoch, continuing the arm's
      rows `base + SlotRows(slots)` and its count `taetord0`. */
  method EmitCells(studyId: Json, arm: Json, epoch: Json, matching: seq<Json>, elements: map<Json, Json>,
                   rows0: seq<TaRow>, taetord0: nat, ghost base: seq<TaRow>, ghost slots: seq<Slot>)
    returns (rows: seq<TaRow>, taetord: nat)
    requires taetord0 == |slots| && rows0 == base + SlotRows(studyId, arm, elements, slots)
    ensures taetord == |slots + CellSlots(epoch, matching)|
    ensures rows == base + SlotRows(studyId, arm, elements, slots + CellSlots(epoch, matching))
  {
    rows, taetord := rows0, taetord0;
    assert slots + CellSlots(epoch, matching[..0]) == slots;
    for j := 0 to |matching|
      invariant taetord == |slots + CellSlots(epoch, matching[..j])|
      invariant rows == base + SlotRows(studyId, arm, elements, slots + CellSlots(epoch, matching[..j]))
    {
      ghost var done := slots + CellSlots(epoch, matching[..j]);
      var ids := ArrField(matching[j], "elementIds");
      rows, taetord := EmitElements(studyId, arm, epoch, ids, elements, rows, taetord, base, done);
      assert matching[..j + 1][..j] == matching[..j];
      SlotsAssoc(slots, CellSlots(epoch, matching[..j]), ElementSlots(epoch, ids));
    }
    assert matching[..|matching|] == matching;
  }

  /** The rows of one cell's element ids. */
  method EmitElements(studyId: Json, arm: Json, epoch: Json, ids: seq<Json>, elements: map<Json, Json>,
                      rows0: seq<TaRow>, taetord0: nat, ghost base: seq<TaRow>, ghost slots: seq<Slot>)
    returns (rows: seq<TaRow>, taetord: nat)
    requires taetord0 == |slots| && rows0 == base + SlotRows(studyId, arm, elements, slots)
    ensures taetord == |slots + ElementSlots(epoch, ids)|
    ensures rows == base + SlotRows(studyId, arm, elements, slots + ElementSlots(epoch, ids))
  {
    hide TaRowOf, ElementOf;
    rows, taetord := rows0, taetord0;
    assert slots + ElementSlots(epoch, ids[..0]) == slots;
    for k := 0 to |ids|
      invariant taetord == |slots| + k
      invariant rows == base + SlotRows(studyId, arm, elements, slots + ElementSlots(epoch, ids[..k]))
    {
      var elem := ElementOf(elements, ids[k]);
      taetord := taetord + 1;
      ghost var before := slots + ElementSlots(epoch, ids[..k]);
      ghost var after := slots + ElementSlots(epoch, ids[..k + 1]);
      assert after == before + [Slot(epoch, ids[k])];
      assert after[..|after| - 1] == before;
      ghost var done := SlotRows(studyId, arm, elements, before);
      rows := rows + [TaRowOf(studyId, arm, taetord, epoch, elem)];
      assert rows == base + (done + [TaRowOf(studyId, arm, taetord, epoch, elem)]);
    }
    assert ids[..|ids|] == ids;
  }

  /** Slot lists concatenate associatively. */
  lemma SlotsAssoc(a: seq<Slot>, b: seq<Slot>, c: seq<Slot>)
    ensures (a + b) + c == a + (b + c)
  {
  }

  /** `generate_te`. */
  method GenerateTe(data: Json) returns (table: Option<seq<TeRow>>)
    ensures table == TeTable(data)
  {
    hide GetVersionAndDesign, StudyIdOf, TeRowOf;
    var found := GetVersionAndDesign(data);
    if found.None? {
      return None;
    }
    var (version, design) := found.value;
    var studyId := StudyIdOf(version);
    var elements := TaElements(design);
    var rows: seq<TeRow> := [];
    for i := 0 to |elements|
      invariant |rows| == i
      invariant forall k :: 0 <= k < i ==> rows[k] == TeRowOf(studyId, elements[k])
    {
      rows := rows + [TeRowOf(studyId, elements[i])];
    }
    assert rows == TeRows(studyId, elements);
    return Some(rows);
  }

  /** `generate_ti`. */
  method GenerateTi(data: Json, clean: Json -> Json) returns (table: Option<seq<TiRow>>)
    ensures table == TiTable(data, clean)
  {
    hide GetVersionAndDesign, StudyIdOf, GetCriterionText;
    var found := GetVersionAndDesign(data);
    if found.None? {
      return None;
    }
    var (version, design) := found.value;
    var studyId := StudyIdOf(version);
    var criteria := ArrField(design, "eligibilityCriteria");
    var items := ArrField(version, "eligibilityCriterionItems");
    var rows: seq<TiRow> := [];
    var incNum, excNum := 0, 0;
    for i := 0 to |criteria|
      invariant incNum == InclusionCount(criteria[..i]) && excNum == ExclusionCount(criteria[..i])
      invariant rows == TiRows(studyId, criteria[..i], items, clean)
    {
      var c := criteria[i];
      assert criteria[..i + 1][..i] == criteria[..i];
      var code, category;
      if Contains(Lower(DecodeOf(c, "category")), "inclusion") {
        incNum := incNum + 1;
        code, category := "IN" + Pad2(incNum), "INCLUSION";
      } else {
        excNum := excNum + 1;
        code, category := "EX" + Pad2(excNum), "EXCLUSION";
      }
      var text := GetCriterionText(c, items, clean);
      rows := rows + [TiRow(studyId, "TI", code, text, category, "", "", "1")];
    }
    assert criteria[..|criteria|] == criteria;
    return Some(rows);
  }

  /** `generate_tv`. */
  method GenerateTv(data: Json) returns (table: Option<seq<TvRow>>)
    ensures table == TvTable(data)
  {
    hide GetVersionAndDesign, StudyIdOf, SortLinked, TvRowOf;
    var found := GetVersionAndDesign(data);
    if found.None? {
      return None;
    }
    var (version, design) := found.value;
    var studyId := StudyIdOf(version);
    var encounters := ArrField(design, "encounters");
    if !Keyed(encounters) {
      return None;
    }
    var ordered := SortLinkedList(encounters);
    var rows: seq<TvRow> := [];
    for i := 0 to |ordered|
      invariant |rows| == i
      invariant forall k :: 0 <= k < i ==> rows[k] == TvRowOf(studyId, k + 1, ordered[k])
    {
      rows := rows + [TvRowOf(studyId, i + 1, ordered[i])];
    }
    assert rows == TvRows(studyId, ordered);
    return Some(rows);
  }

  /** `generate_ts`. */
  method GenerateTs(data: Json) returns (table: Option<seq<TsRow>>)
    ensures table == TsTable(data)
  {
    hide GetVersionAndDesign, StudyIdOf, GetEnrollmentNumber, TsParams, TsRowOf;
    var found := GetVersionAndDesign(data);
    if found.None? {
      return None;
    }
    var (version, design) := found.value;
    var studyId := StudyIdOf(version);
    var enrollment := GetEnrollmentNumber(design);
    if enrollment.None? {
      return None;
    }
    var params := TsParams(version, design, enrollment.value);
    var rows: seq<TsRow> := [];
    for i := 0 to |params|
      invariant |rows| == i
      invariant forall k :: 0 <= k < i ==> rows[k] == TsRowOf(studyId, k + 1, params[k])
    {
      rows := rows + [TsRowOf(studyId, i + 1, params[i])];
    }
    assert rows == TsRows(studyId, params);
    return Some(rows);
  }
}
