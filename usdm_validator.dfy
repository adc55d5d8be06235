/**
 * The recursive checks of the structural validator (usdm_validator.py):
 * the id index, the `*Id`/`*Ids` reference collector, the three per-object
 * checks and the linked-list sanity check.  Each traversal is a method
 * that recurses as the Python does, proved equal to a specification over
 * the document's value sequence `Nodes` (module JsonTree).
 */
module UsdmValidator {
  import opened PyText
  import opened Json
  import opened JsonTree
  import opened ValidationResults
  import opened UsdmUtils

  // ================================================================ collect_ids

  /** `"id" in obj and obj["id"] is not None`. */
  predicate HasId(j: Json) {
    HasKey(j, "id") && IdOf(j) != JNull
  }

  /** The id index of a node sequence: a later node with the same id
      replaces an earlier one, as `dict.update` does. */
  function IdIndex(ns: seq<Node>): map<Json, string> {
    if ns == [] then map[]
    else
      var n := ns[|ns| - 1];
      var init := IdIndex(ns[..|ns| - 1]);
      if HasId(n.value) then init[IdOf(n.value) := n.path] else init
  }

  lemma {:induction false} IdIndexAppend(xs: seq<Node>, ys: seq<Node>)
    ensures IdIndex(xs + ys) == IdIndex(xs) + IdIndex(ys)
    decreases |ys|
  {
    if ys == [] {
      assert xs + ys == xs;
    } else {
      var init := ys[..|ys| - 1];
      assert (xs + ys)[..|xs + ys| - 1] == xs + init;
      IdIndexAppend(xs, init);
    }
  }

  /** An id is indexed exactly when some object of the sequence carries it,
      and it maps to the path of the last such object. */
  lemma {:induction false} IdIndexLast(ns: seq<Node>, k: Json)
    ensures k in IdIndex(ns) <==> exists i :: 0 <= i < |ns| && HasId(ns[i].value) && IdOf(ns[i].value) == k
    ensures k in IdIndex(ns) ==>
      exists i :: 0 <= i < |ns| && HasId(ns[i].value) && IdOf(ns[i].value) == k
        && IdIndex(ns)[k] == ns[i].path
        && forall j :: i < j < |ns| ==> !(HasId(ns[j].value) && IdOf(ns[j].value) == k)
  {
    if ns != [] {
      var init := ns[..|ns| - 1];
      var n := ns[|ns| - 1];
      IdIndexLast(init, k);
      if HasId(n.value) && IdOf(n.value) == k {
        assert IdIndex(ns)[k] == ns[|ns| - 1].path;
      } else {
        if k in IdIndex(init) {
          var i :| 0 <= i < |init| && HasId(init[i].value) && IdOf(init[i].value) == k
            && IdIndex(init)[k] == init[i].path
            && forall j :: i < j < |init| ==> !(HasId(init[j].value) && IdOf(init[j].value) == k);
          assert ns[i] == init[i];
          assert forall j :: i < j < |ns| ==> !(HasId(ns[j].value) && IdOf(ns[j].value) == k) by {
            forall j | i < j < |ns| ensures !(HasId(ns[j].value) && IdOf(ns[j].value) == k) {
              if j < |init| {
                assert ns[j] == init[j];
              }
            }
          }
        }
        if exists i :: 0 <= i < |ns| && HasId(ns[i].value) && IdOf(ns[i].value) == k {
          var i :| 0 <= i < |ns| && HasId(ns[i].value) && IdOf(ns[i].value) == k;
          assert init[i] == ns[i];
        }
      }
    }
  }

  /** `collect_ids` (usdm_validator.py:76-87). */
  method CollectIds(obj: Json, path: string) returns (ids: map<Json, string>)
    ensures ids == IdIndex(Nodes(obj, path))
    decreases obj
  {
    ids := map[];
    if obj.JObj? {
      if HasKey(obj, "id") && IdOf(obj) != JNull {
        ids := ids[IdOf(obj) := path];
      }
      assert ids == IdIndex([Node(obj, path)]);
      for i := 0 to |obj.fields|
        invariant ids == IdIndex([Node(obj, path)] + FieldNodes(obj, path, i))
      {
        var (key, value) := obj.fields[i];
        var sub := CollectIds(value, FieldPath(path, key));
        assert [Node(obj, path)] + FieldNodes(obj, path, i + 1)
          == ([Node(obj, path)] + FieldNodes(obj, path, i)) + Nodes(value, FieldPath(path, key));
        IdIndexAppend([Node(obj, path)] + FieldNodes(obj, path, i), Nodes(value, FieldPath(path, key)));
        ids := ids + sub;
      }
    } else if obj.JArr? {
      assert ids == IdIndex([Node(obj, path)]);
      for i := 0 to |obj.items|
        invariant ids == IdIndex([Node(obj, path)] + ItemNodes(obj, path, i))
      {
        var sub := CollectIds(obj.items[i], IndexPath(path, i));
        assert [Node(obj, path)] + ItemNodes(obj, path, i + 1)
          == ([Node(obj, path)] + ItemNodes(obj, path, i)) + Nodes(obj.items[i], IndexPath(path, i));
        IdIndexAppend([Node(obj, path)] + ItemNodes(obj, path, i), Nodes(obj.items[i], IndexPath(path, i)));
        ids := ids + sub;
      }
    } else {
      assert ids == IdIndex([Node(obj, path)]);
    }
  }

  // ================================================================ collect_references

  /** A reference: the id referred to and the path of the referring field. */
  type Ref = (string, string)

  /** The references below `j`, in traversal order.  A string under a key
      ending in `Id` (other than `id`) and a list under a key ending in
      `Ids` are consumed; every other value is searched recursively. */
  function Refs(j: Json, path: string): seq<Ref>
    decreases j, 2
  {
    match j
    case JObj(fs) => FieldRefs(j, path, |fs|)
    case JArr(xs) => ItemRefs(j, path, |xs|)
    case _ => []
  }

  /** A key whose string value is a reference. */
  predicate IsRefKey(key: string) {
    EndsWith(key, "Id") && key != "id"
  }

  /** A key whose list value holds references. */
  predicate IsRefListKey(key: string) {
    EndsWith(key, "Ids")
  }

  /** The references under the first `n` keys of an object. */
  function FieldRefs(obj: Json, path: string, n: nat): seq<Ref>
    requires obj.JObj? && n <= |obj.fields|
    decreases obj, 1, n
  {
    if n == 0 then []
    else
      var (k, v) := obj.fields[n - 1];
      var p := FieldPath(path, k);
      FieldRefs(obj, path, n - 1)
      + (if IsRefKey(k) && v.JStr? then [(v.s, p)]
         else if IsRefListKey(k) && v.JArr? then ListRefs(v, p, |v.items|)
         else Refs(v, p))
  }

  /** The string elements among the first `n` of a list under an `Ids` key. */
  function ListRefs(arr: Json, path: string, n: nat): seq<Ref>
    requires arr.JArr? && n <= |arr.items|
  {
    if n == 0 then []
    else
      var x := arr.items[n - 1];
      ListRefs(arr, path, n - 1) + (if x.JStr? then [(x.s, IndexPath(path, n - 1))] else [])
  }

  /** The references under the first `n` elements of an array. */
  function ItemRefs(arr: Json, path: string, n: nat): seq<Ref>
    requires arr.JArr? && n <= |arr.items|
    decreases arr, 1, n
  {
    if n == 0 then []
    else ItemRefs(arr, path, n - 1) + Refs(arr.items[n - 1], IndexPath(path, n - 1))
  }

  /** `collect_references` (usdm_validator.py:90-106). */
  method CollectReferences(obj: Json, path: string) returns (refs: seq<Ref>)
    ensures refs == Refs(obj, path)
    decreases obj
  {
    refs := [];
    if obj.JObj? {
      for i := 0 to |obj.fields|
        invariant refs == FieldRefs(obj, path, i)
      {
        var (key, value) := obj.fields[i];
        var p := FieldPath(path, key);
        if IsRefKey(key) && value.JStr? {
          refs := refs + [(value.s, p)];
        } else if IsRefListKey(key) && value.JArr? {
          for m := 0 to |value.items|
            invariant refs == FieldRefs(obj, path, i) + ListRefs(value, p, m)
          {
            if value.items[m].JStr? {
              refs := refs + [(value.items[m].s, IndexPath(p, m))];
            }
          }
        } else {
          var sub := CollectReferences(value, p);
          refs := refs + sub;
        }
      }
    } else if obj.JArr? {
      for i := 0 to |obj.items|
        invariant refs == ItemRefs(obj, path, i)
      {
        var sub := CollectReferences(obj.items[i], IndexPath(path, i));
        refs := refs + sub;
      }
    }
  }

  /** Every reference is a string value of the document found at exactly
      the path reported with it. */
  lemma {:induction false} RefsAreValues(j: Json, path: string)
    ensures forall r :: r in Refs(j, path) ==> Node(JStr(r.0), r.1) in Nodes(j, path)
    decreases j, 2
  {
    match j
    case JObj(fs) => FieldRefsAreValues(j, path, |fs|);
    case JArr(xs) => ItemRefsAreValues(j, path, |xs|);
    case _ =>
  }

  lemma {:induction false} FieldRefsAreValues(obj: Json, path: string, n: nat)
    requires obj.JObj? && n <= |obj.fields|
    ensures forall r :: r in FieldRefs(obj, path, n) ==> Node(JStr(r.0), r.1) in FieldNodes(obj, path, n)
    decreases obj, 1, n
  {
    if n > 0 {
      var (k, v) := obj.fields[n - 1];
      var p := FieldPath(path, k);
      FieldRefsAreValues(obj, path, n - 1);
      if IsRefKey(k) && v.JStr? {
        assert Nodes(v, p)[0] == Node(JStr(v.s), p);
      } else if IsRefListKey(k) && v.JArr? {
        ListRefsAreValues(v, p, |v.items|);
      } else {
        RefsAreValues(v, p);
      }
    }
  }

  lemma {:induction false} ListRefsAreValues(arr: Json, path: string, n: nat)
    requires arr.JArr? && n <= |arr.items|
    ensures forall r :: r in ListRefs(arr, path, n) ==> Node(JStr(r.0), r.1) in Nodes(arr, path)
  {
    if n > 0 {
      ListRefsAreValues(arr, path, n - 1);
      ElementNode(arr, path, n - 1, |arr.items|);
    }
  }

  /** Each element is visited with its indexed path. */
  lemma {:induction false} ElementNode(arr: Json, path: string, i: nat, n: nat)
    requires arr.JArr? && i < n <= |arr.items|
    ensures Node(arr.items[i], IndexPath(path, i)) in ItemNodes(arr, path, n)
    decreases n
  {
    if i < n - 1 {
      ElementNode(arr, path, i, n - 1);
    } else {
      assert Nodes(arr.items[i], IndexPath(path, i))[0] == Node(arr.items[i], IndexPath(path, i));
    }
  }

  lemma {:induction false} ItemRefsAreValues(arr: Json, path: string, n: nat)
    requires arr.JArr? && n <= |arr.items|
    ensures forall r :: r in ItemRefs(arr, path, n) ==> Node(JStr(r.0), r.1) in ItemNodes(arr, path, n)
    decreases arr, 1, n
  {
    if n > 0 {
      ItemRefsAreValues(arr, path, n - 1);
      RefsAreValues(arr.items[n - 1], IndexPath(path, n - 1));
    }
  }

  /** A string field of an object under a reference key is reported. */
  lemma {:induction false} OwnRefReported(obj: Json, path: string, i: nat, n: nat)
    requires obj.JObj? && i < n <= |obj.fields|
    requires IsRefKey(obj.fields[i].0) && obj.fields[i].1.JStr?
    ensures (obj.fields[i].1.s, FieldPath(path, obj.fields[i].0)) in FieldRefs(obj, path, n)
    decreases n
  {
    if i < n - 1 {
      OwnRefReported(obj, path, i, n - 1);
    }
  }

  /** Values consumed as reference lists are not searched: an object inside
      an `Ids` list hides its own references. */
  lemma ConsumedListNotSearched()
    ensures Refs(JObj([("armIds", JArr([JObj([("epochId", JStr("E1"))])]))]), "root") == []
  {
    var inner := JObj([("epochId", JStr("E1"))]);
    var list := JArr([inner]);
    var top := JObj([("armIds", list)]);
    assert "armIds"[4..] == "ds";
    assert !IsRefKey("armIds") by {
      assert "armIds"[4] != "Id"[0];
    }
    assert IsRefListKey("armIds") by {
      assert "armIds"[3..] == "Ids";
    }
    assert ListRefs(list, FieldPath("root", "armIds"), 1) == [];
    assert FieldRefs(top, "root", 1) == FieldRefs(top, "root", 0) + ListRefs(list, FieldPath("root", "armIds"), 1);
  }

  // ================================================================ per-object checks

  /** The finding of `validate_instance_types` for one value: an object with
      an `id` key, even a null one, and no `instanceType`. */
  function MissingInstanceType(n: Node): seq<string> {
    if n.value.JObj? && HasKey(n.value, "id") && !HasKey(n.value, "instanceType")
    then [WarningText("Object at " + n.path + " has 'id' but no 'instanceType'")]
    else []
  }

  /** The finding of `validate_extension_attributes` for one value: an
      object with a non-null `id` and no `extensionAttributes`. */
  function MissingExtensionAttributes(n: Node): seq<string> {
    if n.value.JObj? && HasId(n.value) && !HasKey(n.value, "extensionAttributes")
    then [WarningText("Object at " + n.path + " missing 'extensionAttributes'")]
    else []
  }

  /** `obj.get("instanceType") == "Code"`. */
  predicate IsCode(j: Json) {
    j.JObj? && GetOrNull(j, "instanceType") == JStr("Code")
  }

  /** The fields every Code object needs, in the order they are checked. */
  const CodeFields: seq<string> := ["code", "codeSystem", "decode"]

  /** `field not in obj or not obj[field]`. */
  predicate Lacks(obj: Json, field: string) {
    !HasKey(obj, field) || !Truthy(GetOrNull(obj, field))
  }

  /** One error per listed field the object lacks, in list order. */
  function MissingFields(obj: Json, path: string, fields: seq<string>): seq<string> {
    if fields == [] then []
    else
      var f := fields[|fields| - 1];
      MissingFields(obj, path, fields[..|fields| - 1])
      + (if Lacks(obj, f) then [ErrorText("Code at " + path + " missing required field '" + f + "'")] else [])
  }

  /** The findings of `validate_code_objects` for one value. */
  function IncompleteCode(n: Node): seq<string> {
    if IsCode(n.value) then MissingFields(n.value, n.path, CodeFields) else []
  }

  /** No error exactly when the object lacks none of the listed fields. */
  lemma {:induction false} MissingFieldsEmpty(obj: Json, path: string, fields: seq<string>)
    ensures MissingFields(obj, path, fields) == [] <==> forall i :: 0 <= i < |fields| ==> !Lacks(obj, fields[i])
  {
    if fields != [] {
      var init := fields[..|fields| - 1];
      MissingFieldsEmpty(obj, path, init);
      assert forall i :: 0 <= i < |init| ==> init[i] == fields[i];
    }
  }

  /** A Code object yields no error exactly when it has a truthy `code`,
      `codeSystem` and `decode`. */
  lemma IncompleteCodeEmpty(n: Node)
    requires IsCode(n.value)
    ensures IncompleteCode(n) == [] <==>
      Truthy(GetOrNull(n.value, "code")) && Truthy(GetOrNull(n.value, "codeSystem"))
      && Truthy(GetOrNull(n.value, "decode"))
  {
    MissingFieldsEmpty(n.value, n.path, CodeFields);
    assert CodeFields[0] == "code" && CodeFields[1] == "codeSystem" && CodeFields[2] == "decode";
  }

  /** `validate_instance_types` (usdm_validator.py:109-118). */
  method ValidateInstanceTypes(obj: Json, path: string, result: ValidationResult)
    modifies result
    ensures result.warnings == old(result.warnings) + Findings(obj, path, MissingInstanceType)
    ensures result.errors == old(result.errors) && result.info == old(result.info)
    decreases obj, 1
  {
    if obj.JObj? {
      if HasKey(obj, "id") && !HasKey(obj, "instanceType") {
        result.Warning("Object at " + path + " has 'id' but no 'instanceType'");
      }
      ValidateInstanceTypesFields(obj, path, result);
      AppendAssoc(old(result.warnings), MissingInstanceType(Node(obj, path)), FieldFindings(obj, path, |obj.fields|, MissingInstanceType));
    } else if obj.JArr? {
      ValidateInstanceTypesItems(obj, path, result);
      AppendAssoc(old(result.warnings), MissingInstanceType(Node(obj, path)), ItemFindings(obj, path, |obj.items|, MissingInstanceType));
    }
  }

  /** The loop over an object's fields in `validate_instance_types`. */
  method ValidateInstanceTypesFields(obj: Json, path: string, result: ValidationResult)
    requires obj.JObj?
    modifies result
    ensures result.warnings == old(result.warnings) + FieldFindings(obj, path, |obj.fields|, MissingInstanceType)
    ensures result.errors == old(result.errors) && result.info == old(result.info)
    decreases obj, 0
  {
    for i := 0 to |obj.fields|
      invariant result.warnings == old(result.warnings) + FieldFindings(obj, path, i, MissingInstanceType)
      invariant result.errors == old(result.errors) && result.info == old(result.info)
    {
      var (key, value) := obj.fields[i];
      ValidateInstanceTypes(value, FieldPath(path, key), result);
      AppendAssoc(old(result.warnings), FieldFindings(obj, path, i, MissingInstanceType), Findings(value, FieldPath(path, key), MissingInstanceType));
    }
  }

  /** The loop over an array's elements in `validate_instance_types`. */
  method ValidateInstanceTypesItems(arr: Json, path: string, result: ValidationResult)
    requires arr.JArr?
    modifies result
    ensures result.warnings == old(result.warnings) + ItemFindings(arr, path, |arr.items|, MissingInstanceType)
    ensures result.errors == old(result.errors) && result.info == old(result.info)
    decreases arr, 0
  {
    for i := 0 to |arr.items|
      invariant result.warnings == old(result.warnings) + ItemFindings(arr, path, i, MissingInstanceType)
      invariant result.errors == old(result.errors) && result.info == old(result.info)
    {
      ValidateInstanceTypes(arr.items[i], IndexPath(path, i), result);
      AppendAssoc(old(result.warnings), ItemFindings(arr, path, i, MissingInstanceType), Findings(arr.items[i], IndexPath(path, i), MissingInstanceType));
    }
  }

  /** `validate_extension_attributes` (usdm_validator.py:121-130). */
  method ValidateExtensionAttributes(obj: Json, path: string, result: ValidationResult)
    modifies result
    ensures result.warnings == old(result.warnings) + Findings(obj, path, MissingExtensionAttributes)
    ensures result.errors == old(result.errors) && result.info == old(result.info)
    decreases obj, 1
  {
    if obj.JObj? {
      if HasKey(obj, "id") && IdOf(obj) != JNull && !HasKey(obj, "extensionAttributes") {
        result.Warning("Object at " + path + " missing 'extensionAttributes'");
      }
      ValidateExtensionAttributesFields(obj, path, result);
      AppendAssoc(old(result.warnings), MissingExtensionAttributes(Node(obj, path)), FieldFindings(obj, path, |obj.fields|, MissingExtensionAttributes));
    } else if obj.JArr? {
      ValidateExtensionAttributesItems(obj, path, result);
      AppendAssoc(old(result.warnings), MissingExtensionAttributes(Node(obj, path)), ItemFindings(obj, path, |obj.items|, MissingExtensionAttributes));
    }
  }

  /** The loop over an object's fields in `validate_extension_attributes`. */
  method ValidateExtensionAttributesFields(obj: Json, path: string, result: ValidationResult)
    requires obj.JObj?
    modifies result
    ensures result.warnings == old(result.warnings) + FieldFindings(obj, path, |obj.fields|, MissingExtensionAttributes)
    ensures result.errors == old(result.errors) && result.info == old(result.info)
    decreases obj, 0
  {
    for i := 0 to |obj.fields|
      invariant result.warnings == old(result.warnings) + FieldFindings(obj, path, i, MissingExtensionAttributes)
      invariant result.errors == old(result.errors) && result.info == old(result.info)
    {
      var (key, value) := obj.fields[i];
      ValidateExtensionAttributes(value, FieldPath(path, key), result);
      AppendAssoc(old(result.warnings), FieldFindings(obj, path, i, MissingExtensionAttributes), Findings(value, FieldPath(path, key), MissingExtensionAttributes));
    }
  }

  /** The loop over an array's elements in `validate_extension_attributes`. */
  method ValidateExtensionAttributesItems(arr: Json, path: string, result: ValidationResult)
    requires arr.JArr?
    modifies result
    ensures result.warnings == old(result.warnings) + ItemFindings(arr, path, |arr.items|, MissingExtensionAttributes)
    ensures result.errors == old(result.errors) && result.info == old(result.info)
    decreases arr, 0
  {
    for i := 0 to |arr.items|
      invariant result.warnings == old(result.warnings) + ItemFindings(arr, path, i, MissingExtensionAttributes)
      invariant result.errors == old(result.errors) && result.info == old(result.info)
    {
      ValidateExtensionAttributes(arr.items[i], IndexPath(path, i), result);
      AppendAssoc(old(result.warnings), ItemFindings(arr, path, i, MissingExtensionAttributes), Findings(arr.items[i], IndexPath(path, i), MissingExtensionAttributes));
    }
  }

  /** `validate_code_objects` (usdm_validator.py:133-144). */
  method ValidateCodeObjects(obj: Json, path: string, result: ValidationResult)
    modifies result
    ensures result.errors == old(result.errors) + Findings(obj, path, IncompleteCode)
    ensures result.warnings == old(result.warnings) && result.info == old(result.info)
    decreases obj, 1
  {
    if obj.JObj? {
      if GetOrNull(obj, "instanceType") == JStr("Code") {
        ReportMissingFields(obj, path, result);
      }
      ValidateCodeObjectsFields(obj, path, result);
      AppendAssoc(old(result.errors), IncompleteCode(Node(obj, path)), FieldFindings(obj, path, |obj.fields|, IncompleteCode));
    } else if obj.JArr? {
      ValidateCodeObjectsItems(obj, path, result);
      AppendAssoc(old(result.errors), IncompleteCode(Node(obj, path)), ItemFindings(obj, path, |obj.items|, IncompleteCode));
    }
  }

  /** The field loop of `validate_code_objects` (usdm_validator.py:137-139):
      one error per Code field that is missing or falsy, in field order. */
  method ReportMissingFields(obj: Json, path: string, result: ValidationResult)
    modifies result
    ensures result.errors == old(result.errors) + MissingFields(obj, path, CodeFields)
    ensures result.warnings == old(result.warnings) && result.info == old(result.info)
  {
    for f := 0 to |CodeFields|
      invariant result.errors == old(result.errors) + MissingFields(obj, path, CodeFields[..f])
      invariant result.warnings == old(result.warnings) && result.info == old(result.info)
    {
      var field := CodeFields[f];
      assert CodeFields[..f + 1][..f] == CodeFields[..f];
      if !HasKey(obj, field) || !Truthy(GetOrNull(obj, field)) {
        result.Error("Code at " + path + " missing required field '" + field + "'");
      }
    }
    assert CodeFields[..|CodeFields|] == CodeFields;
  }

  /** The loop over an object's fields in `validate_code_objects`. */
  method ValidateCodeObjectsFields(obj: Json, path: string, result: ValidationResult)
    requires obj.JObj?
    modifies result
    ensures result.errors == old(result.errors) + FieldFindings(obj, path, |obj.fields|, IncompleteCode)
    ensures result.warnings == old(result.warnings) && result.info == old(result.info)
    decreases obj, 0
  {
    for i := 0 to |obj.fields|
      invariant result.errors == old(result.errors) + FieldFindings(obj, path, i, IncompleteCode)
      invariant result.warnings == old(result.warnings) && result.info == old(result.info)
    {
      var (key, value) := obj.fields[i];
      ValidateCodeObjects(value, FieldPath(path, key), result);
      AppendAssoc(old(result.errors), FieldFindings(obj, path, i, IncompleteCode), Findings(value, FieldPath(path, key), IncompleteCode));
    }
  }

  /** The loop over an array's elements in `validate_code_objects`. */
  method ValidateCodeObjectsItems(arr: Json, path: string, result: ValidationResult)
    requires arr.JArr?
    modifies result
    ensures result.errors == old(result.errors) + ItemFindings(arr, path, |arr.items|, IncompleteCode)
    ensures result.warnings == old(result.warnings) && result.info == old(result.info)
    decreases arr, 0
  {
    for i := 0 to |arr.items|
      invariant result.errors == old(result.errors) + ItemFindings(arr, path, i, IncompleteCode)
      invariant result.warnings == old(result.warnings) && result.info == old(result.info)
    {
      ValidateCodeObjects(arr.items[i], IndexPath(path, i), result);
      AppendAssoc(old(result.errors), ItemFindings(arr, path, i, IncompleteCode), Findings(arr.items[i], IndexPath(path, i), IncompleteCode));
    }
  }

  /** The two id checks differ on a null `id`: it draws the instanceType
      warning but not the extensionAttributes one. */
  lemma NullIdDiffers(path: string)
    ensures MissingInstanceType(Node(JObj([("id", JNull)]), path)) != []
    ensures MissingExtensionAttributes(Node(JObj([("id", JNull)]), path)) == []
  {
  }

  /** No Code error anywhere exactly when every Code object of the document
      has a truthy `code`, `codeSystem` and `decode`. */
  lemma CodeObjectsComplete(j: Json, path: string)
    ensures Findings(j, path, IncompleteCode) == [] <==>
      forall n :: n in Nodes(j, path) && IsCode(n.value) ==>
        Truthy(GetOrNull(n.value, "code")) && Truthy(GetOrNull(n.value, "codeSystem"))
        && Truthy(GetOrNull(n.value, "decode"))
  {
    var ns := Nodes(j, path);
    FindingsGather(j, path, IncompleteCode);
    GatherEmpty(ns, IncompleteCode);
    forall i | 0 <= i < |ns| && IsCode(ns[i].value) {
      IncompleteCodeEmpty(ns[i]);
    }
  }

  /** A warning of the form `a + q + b` determines `q`. */
  lemma WarningDetermined(a: string, q1: string, q2: string, b: string)
    requires WarningText(a + q1 + b) == WarningText(a + q2 + b)
    ensures q1 == q2
  {
    var w1 := WarningText(a + q1 + b);
    var w2 := WarningText(a + q2 + b);
    var k := |"WARNING: "| + |a|;
    assert |q1| == |q2|;
    assert q1 == w1[k..k + |q1|];
    assert q2 == w2[k..k + |q2|];
  }

  /** The instanceType warning for path `q` is reported exactly when the
      traversal visits, at `q`, an object with an `id` key and no
      `instanceType`. */
  lemma InstanceTypeReported(j: Json, path: string, q: string)
    ensures WarningText("Object at " + q + " has 'id' but no 'instanceType'") in Findings(j, path, MissingInstanceType)
      <==> exists n :: n in Nodes(j, path) && n.path == q
             && n.value.JObj? && HasKey(n.value, "id") && !HasKey(n.value, "instanceType")
  {
    var m := WarningText("Object at " + q + " has 'id' but no 'instanceType'");
    var ns := Nodes(j, path);
    FindingsGather(j, path, MissingInstanceType);
    GatherMember(ns, MissingInstanceType, m);
    if m in Gather(ns, MissingInstanceType) {
      var i :| 0 <= i < |ns| && m in MissingInstanceType(ns[i]);
      WarningDetermined("Object at ", ns[i].path, q, " has 'id' but no 'instanceType'");
    }
    if exists n :: n in ns && n.path == q && n.value.JObj? && HasKey(n.value, "id") && !HasKey(n.value, "instanceType") {
      var n :| n in ns && n.path == q && n.value.JObj? && HasKey(n.value, "id") && !HasKey(n.value, "instanceType");
      var i :| 0 <= i < |ns| && ns[i] == n;
      assert m in MissingInstanceType(ns[i]);
    }
  }

  /** The extensionAttributes warning for path `q` is reported exactly when
      the traversal visits, at `q`, an object with a non-null `id` and no
      `extensionAttributes`. */
  lemma ExtensionAttributesReported(j: Json, path: string, q: string)
    ensures WarningText("Object at " + q + " missing 'extensionAttributes'") in Findings(j, path, MissingExtensionAttributes)
      <==> exists n :: n in Nodes(j, path) && n.path == q
             && n.value.JObj? && HasId(n.value) && !HasKey(n.value, "extensionAttributes")
  {
    var m := WarningText("Object at " + q + " missing 'extensionAttributes'");
    var ns := Nodes(j, path);
    FindingsGather(j, path, MissingExtensionAttributes);
    GatherMember(ns, MissingExtensionAttributes, m);
    if m in Gather(ns, MissingExtensionAttributes) {
      var i :| 0 <= i < |ns| && m in MissingExtensionAttributes(ns[i]);
      WarningDetermined("Object at ", ns[i].path, q, " missing 'extensionAttributes'");
    }
    if exists n :: n in ns && n.path == q && n.value.JObj? && HasId(n.value) && !HasKey(n.value, "extensionAttributes") {
      var n :| n in ns && n.path == q && n.value.JObj? && HasId(n.value) && !HasKey(n.value, "extensionAttributes");
      var i :| 0 <= i < |ns| && ns[i] == n;
      assert m in MissingExtensionAttributes(ns[i]);
    }
  }

  // ================================================================ validate_linked_list

  /** Some item has a `previousId` or `nextId` key. */
  predicate UsesLinks(items: seq<Json>) {
    exists i :: 0 <= i < |items| && (HasKey(items[i], "previousId") || HasKey(items[i], "nextId"))
  }

  /** `item["id"]` succeeds wherever the check evaluates it. */
  predicate LinksKeyed(items: seq<Json>) {
    UsesLinks(items) ==> Keyed(items)
  }

  /** The items whose `previousId` is missing or null, in order. */
  function Heads(items: seq<Json>): (r: seq<Json>)
    ensures r == [] <==> forall i :: 0 <= i < |items| ==> !IsHead(items[i])
  {
    if items == [] then []
    else
      var last := items[|items| - 1];
      Heads(items[..|items| - 1]) + (if IsHead(last) then [last] else [])
  }

  /** The errors for one item's dangling pointers: `nextId` first, then
      `previousId`, each only when truthy and not an id of the list. */
  function PointerErrors(item: Json, byId: map<Json, Json>, name: string): seq<string> {
    var next := GetOrNull(item, "nextId");
    var prev := GetOrNull(item, "previousId");
    (if Truthy(next) && next !in byId
     then [ErrorText(name + ": Item '" + PyStr(IdOf(item)) + "' has nextId '" + PyStr(next) + "' that doesn't exist")]
     else [])
    + (if Truthy(prev) && prev !in byId
       then [ErrorText(name + ": Item '" + PyStr(IdOf(item)) + "' has previousId '" + PyStr(prev) + "' that doesn't exist")]
       else [])
  }

  function DanglingErrors(items: seq<Json>, byId: map<Json, Json>, name: string): seq<string> {
    if items == [] then []
    else
      DanglingErrors(items[..|items| - 1], byId, name) + PointerErrors(items[|items| - 1], byId, name)
  }

  /** The warnings `validate_linked_list` adds. */
  function LinkedListWarnings(items: seq<Json>, name: string): seq<string> {
    if items == [] || !UsesLinks(items) then []
    else if Heads(items) == [] then [WarningText(name + ": No linked-list head found (no item with previousId=null)")]
    else []
  }

  /** The errors `validate_linked_list` adds. */
  function LinkedListErrors(items: seq<Json>, name: string): seq<string> {
    if items == [] || !UsesLinks(items) then []
    else DanglingErrors(items, ById(items), name)
  }

  /** `validate_linked_list` (usdm_validator.py:147-172). */
  method ValidateLinkedList(items: seq<Json>, name: string, result: ValidationResult)
    requires LinksKeyed(items)
    modifies result
    ensures result.warnings == old(result.warnings) + LinkedListWarnings(items, name)
    ensures result.errors == old(result.errors) + LinkedListErrors(items, name)
    ensures result.info == old(result.info)
  {
    if |items| == 0 {
      return;
    }
    var hasLinked := AnyLinked(items);
    if !hasLinked {
      return;
    }
    var byId := IndexById(items);
    var heads := CollectHeads(items);
    if |heads| == 0 {
      result.Warning(name + ": No linked-list head found (no item with previousId=null)");
    }
    ReportDangling(items, byId, name, result);
  }

  /** `any("previousId" in item or "nextId" in item for item in items)`. */
  method AnyLinked(items: seq<Json>) returns (found: bool)
    ensures found == UsesLinks(items)
  {
    found := false;
    for i := 0 to |items|
      invariant found <==> exists j :: 0 <= j < i && (HasKey(items[j], "previousId") || HasKey(items[j], "nextId"))
    {
      if HasKey(items[i], "previousId") || HasKey(items[i], "nextId") {
        found := true;
      }
    }
  }

  /** `[item for item in items if item.get("previousId") is None]`. */
  method CollectHeads(items: seq<Json>) returns (heads: seq<Json>)
    ensures heads == Heads(items)
  {
    heads := [];
    for i := 0 to |items|
      invariant heads == Heads(items[..i])
    {
      assert items[..i + 1][..i] == items[..i];
      if GetOrNull(items[i], "previousId") == JNull {
        heads := heads + [items[i]];
      }
    }
    assert items[..|items|] == items;
  }

  /** The pointer loop of usdm_validator.py:166-172. */
  method ReportDangling(items: seq<Json>, byId: map<Json, Json>, name: string, result: ValidationResult)
    modifies result
    ensures result.errors == old(result.errors) + DanglingErrors(items, byId, name)
    ensures result.warnings == old(result.warnings) && result.info == old(result.info)
  {
    for i := 0 to |items|
      invariant result.errors == old(result.errors) + DanglingErrors(items[..i], byId, name)
      invariant result.warnings == old(result.warnings) && result.info == old(result.info)
    {
      assert items[..i + 1][..i] == items[..i];
      ReportPointers(items[i], byId, name, result);
      AppendAssoc(old(result.errors), DanglingErrors(items[..i], byId, name), PointerErrors(items[i], byId, name));
    }
    assert items[..|items|] == items;
  }

  /** One iteration of the pointer loop: the `nextId` error, then the
      `previousId` error, each when the pointer is truthy and unknown. */
  method ReportPointers(item: Json, byId: map<Json, Json>, name: string, result: ValidationResult)
    modifies result
    ensures result.errors == old(result.errors) + PointerErrors(item, byId, name)
    ensures result.warnings == old(result.warnings) && result.info == old(result.info)
  {
    var nextId := GetOrNull(item, "nextId");
    var prevId := GetOrNull(item, "previousId");
    if Truthy(nextId) && nextId !in byId {
      result.Error(name + ": Item '" + PyStr(IdOf(item)) + "' has nextId '" + PyStr(nextId) + "' that doesn't exist");
    }
    if Truthy(prevId) && prevId !in byId {
      result.Error(name + ": Item '" + PyStr(IdOf(item)) + "' has previousId '" + PyStr(prevId) + "' that doesn't exist");
    }
  }

  /** A pointer resolves when it is falsy or names an item of the list. */
  predicate Resolves(items: seq<Json>, pointer: Json) {
    !Truthy(pointer) || exists i :: 0 <= i < |items| && IdOf(items[i]) == pointer
  }

  lemma {:induction false} DanglingErrorsEmpty(items: seq<Json>, all: seq<Json>, name: string)
    ensures DanglingErrors(items, ById(all), name) == [] <==>
      forall i :: 0 <= i < |items| ==>
        Resolves(all, GetOrNull(items[i], "nextId")) && Resolves(all, GetOrNull(items[i], "previousId"))
  {
    if items != [] {
      var init := items[..|items| - 1];
      var last := items[|items| - 1];
      DanglingErrorsEmpty(init, all, name);
      ByIdKeys(all, GetOrNull(last, "nextId"));
      ByIdKeys(all, GetOrNull(last, "previousId"));
      assert forall i :: 0 <= i < |init| ==> init[i] == items[i];
    }
  }

  /** The check reports no error exactly when the list is empty, does not
      use links, or every truthy pointer names an item of the list. */
  lemma LinkedListErrorsEmpty(items: seq<Json>, name: string)
    ensures LinkedListErrors(items, name) == [] <==>
      items == [] || !UsesLinks(items)
      || forall i :: 0 <= i < |items| ==>
           Resolves(items, GetOrNull(items[i], "nextId")) && Resolves(items, GetOrNull(items[i], "previousId"))
  {
    DanglingErrorsEmpty(items, items, name);
  }

  /** At most one warning, and one exactly when a linked list has no item
      with a missing or null `previousId`. */
  lemma LinkedListWarningOnce(items: seq<Json>, name: string)
    ensures |LinkedListWarnings(items, name)| <= 1
    ensures |LinkedListWarnings(items, name)| == 1 <==>
      UsesLinks(items) && forall i :: 0 <= i < |items| ==> !IsHead(items[i])
  {
  }

  /** The check does not detect cycles: two items pointing at each other,
      the first a head, draw nothing. */
  lemma CycleUndetected()
    ensures var a := JObj([("id", JStr("A")), ("previousId", JNull), ("nextId", JStr("B"))]);
      var b := JObj([("id", JStr("B")), ("previousId", JStr("A")), ("nextId", JStr("A"))]);
      LinkedListErrors([a, b], "epochs") == [] && LinkedListWarnings([a, b], "epochs") == []
  {
    var a := JObj([("id", JStr("A")), ("previousId", JNull), ("nextId", JStr("B"))]);
    var b := JObj([("id", JStr("B")), ("previousId", JStr("A")), ("nextId", JStr("A"))]);
    assert IdOf(a) == JStr("A") && IdOf(b) == JStr("B");
    assert HasKey(a, "previousId");
    assert IsHead(a);
    assert [a, b][..1] == [a];
    assert Heads([a, b]) != [];
    LinkedListErrorsEmpty([a, b], "epochs");
    assert Resolves([a, b], JStr("A")) by { assert IdOf([a, b][0]) == JStr("A"); }
    assert Resolves([a, b], JStr("B")) by { assert IdOf([a, b][1]) == JStr("B"); }
  }
}
