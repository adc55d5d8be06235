/**
 * The traversal shared by the validator's recursive checks: every value of
 * a document in the order they visit it, each with the path they build for
 * it (`.key` for an object field, `[i]` for an array element), and the
 * concatenation of per-value findings over such a sequence.
 */
module JsonTree {
  import opened PyText
  import opened Json

  /** A value met by a traversal, with the path it was given. */
  datatype Node = Node(value: Json, path: string)

  /** `f"{path}.{key}"`. */
  function FieldPath(path: string, key: string): string {
    path + "." + key
  }

  /** `f"{path}[{i}]"`. */
  function IndexPath(path: string, i: nat): string {
    path + "[" + NatToString(i) + "]"
  }

  /** Every value of `j` in visiting order: `j` itself, then the values
      under its keys in insertion order, or its elements in order. */
  function Nodes(j: Json, path: string): seq<Node>
    decreases j, 2
  {
    [Node(j, path)] + Children(j, path)
  }

  /** The values strictly below `j`. */
  function Children(j: Json, path: string): seq<Node>
    decreases j, 1
  {
    match j
    case JObj(fs) => FieldNodes(j, path, |fs|)
    case JArr(xs) => ItemNodes(j, path, |xs|)
    case _ => []
  }

  /** The values under the first `n` keys of an object. */
  function FieldNodes(obj: Json, path: string, n: nat): seq<Node>
    requires obj.JObj? && n <= |obj.fields|
    decreases obj, 0, n
  {
    if n == 0 then []
    else
      var (k, v) := obj.fields[n - 1];
      FieldNodes(obj, path, n - 1) + Nodes(v, FieldPath(path, k))
  }

  /** The values under the first `n` elements of an array. */
  function ItemNodes(arr: Json, path: string, n: nat): seq<Node>
    requires arr.JArr? && n <= |arr.items|
    decreases arr, 0, n
  {
    if n == 0 then []
    else ItemNodes(arr, path, n - 1) + Nodes(arr.items[n - 1], IndexPath(path, n - 1))
  }

  /** The findings `f` reports for each element, concatenated in order. */
  function Gather<T>(xs: seq<T>, f: T -> seq<string>): seq<string> {
    if xs == [] then []
    else Gather(xs[..|xs| - 1], f) + f(xs[|xs| - 1])
  }

  lemma {:induction false} GatherAppend<T>(xs: seq<T>, ys: seq<T>, f: T -> seq<string>)
    ensures Gather(xs + ys, f) == Gather(xs, f) + Gather(ys, f)
    decreases |ys|
  {
    if ys == [] {
      assert xs + ys == xs;
    } else {
      var init := ys[..|ys| - 1];
      assert (xs + ys)[..|xs + ys| - 1] == xs + init;
      GatherAppend(xs, init, f);
    }
  }

  /** Appending findings is associative. */
  lemma AppendAssoc(a: seq<string>, b: seq<string>, c: seq<string>)
    ensures (a + b) + c == a + (b + c)
  {
  }

  /** A message is gathered exactly when some element reports it. */
  lemma {:induction false} GatherMember<T>(xs: seq<T>, f: T -> seq<string>, m: string)
    ensures m in Gather(xs, f) <==> exists i :: 0 <= i < |xs| && m in f(xs[i])
  {
    if xs != [] {
      var init := xs[..|xs| - 1];
      GatherMember(init, f, m);
      if m in Gather(init, f) {
        var i :| 0 <= i < |init| && m in f(init[i]);
        assert xs[i] == init[i];
      }
      if exists i :: 0 <= i < |xs| && m in f(xs[i]) {
        var i :| 0 <= i < |xs| && m in f(xs[i]);
        if i < |init| {
          assert init[i] == xs[i];
        }
      }
    }
  }

  /** Nothing is gathered exactly when no element reports anything. */
  lemma {:induction false} GatherEmpty<T>(xs: seq<T>, f: T -> seq<string>)
    ensures Gather(xs, f) == [] <==> forall i :: 0 <= i < |xs| ==> f(xs[i]) == []
  {
    if xs != [] {
      var init := xs[..|xs| - 1];
      GatherEmpty(init, f);
      if Gather(xs, f) == [] {
        forall i | 0 <= i < |xs| ensures f(xs[i]) == [] {
          if i < |init| {
            assert init[i] == xs[i];
          }
        }
      }
    }
  }

  /** The findings of a recursive check that reports `f` for every value
      of `j`: the value's own findings, then those under its keys or its
      elements, in visiting order. */
  function Findings(j: Json, path: string, f: Node -> seq<string>): seq<string>
    decreases j, 1
  {
    f(Node(j, path))
    + match j
      case JObj(fs) => FieldFindings(j, path, |fs|, f)
      case JArr(xs) => ItemFindings(j, path, |xs|, f)
      case _ => []
  }

  /** The findings under the first `n` keys of an object. */
  function FieldFindings(obj: Json, path: string, n: nat, f: Node -> seq<string>): seq<string>
    requires obj.JObj? && n <= |obj.fields|
    decreases obj, 0, n
  {
    if n == 0 then []
    else
      var (k, v) := obj.fields[n - 1];
      FieldFindings(obj, path, n - 1, f) + Findings(v, FieldPath(path, k), f)
  }

  /** The findings under the first `n` elements of an array. */
  function ItemFindings(arr: Json, path: string, n: nat, f: Node -> seq<string>): seq<string>
    requires arr.JArr? && n <= |arr.items|
    decreases arr, 0, n
  {
    if n == 0 then []
    else ItemFindings(arr, path, n - 1, f) + Findings(arr.items[n - 1], IndexPath(path, n - 1), f)
  }

  /** A recursive check reports, in order, what `f` reports for each value
      the traversal visits. */
  lemma {:induction false} FindingsGather(j: Json, path: string, f: Node -> seq<string>)
    ensures Findings(j, path, f) == Gather(Nodes(j, path), f)
    decreases j, 1
  {
    GatherAppend([Node(j, path)], Children(j, path), f);
    assert Gather([Node(j, path)], f) == f(Node(j, path));
    match j
    case JObj(fs) => FieldFindingsGather(j, path, |fs|, f);
    case JArr(xs) => ItemFindingsGather(j, path, |xs|, f);
    case _ =>
  }

  lemma {:induction false} FieldFindingsGather(obj: Json, path: string, n: nat, f: Node -> seq<string>)
    requires obj.JObj? && n <= |obj.fields|
    ensures FieldFindings(obj, path, n, f) == Gather(FieldNodes(obj, path, n), f)
    decreases obj, 0, n
  {
    if n > 0 {
      var (k, v) := obj.fields[n - 1];
      FieldFindingsGather(obj, path, n - 1, f);
      FindingsGather(v, FieldPath(path, k), f);
      GatherAppend(FieldNodes(obj, path, n - 1), Nodes(v, FieldPath(path, k)), f);
    }
  }

  lemma {:induction false} ItemFindingsGather(arr: Json, path: string, n: nat, f: Node -> seq<string>)
    requires arr.JArr? && n <= |arr.items|
    ensures ItemFindings(arr, path, n, f) == Gather(ItemNodes(arr, path, n), f)
    decreases arr, 0, n
  {
    if n > 0 {
      ItemFindingsGather(arr, path, n - 1, f);
      FindingsGather(arr.items[n - 1], IndexPath(path, n - 1), f);
      GatherAppend(ItemNodes(arr, path, n - 1), Nodes(arr.items[n - 1], IndexPath(path, n - 1)), f);
    }
  }

  /** Every path of the traversal extends the path it started from. */
  lemma {:induction false} NodesExtendPath(j: Json, path: string)
    ensures forall n :: n in Nodes(j, path) ==> path <= n.path
    decreases j, 2
  {
    ChildrenExtendPath(j, path);
  }

  lemma {:induction false} ChildrenExtendPath(j: Json, path: string)
    ensures forall n :: n in Children(j, path) ==> path <= n.path
    decreases j, 1
  {
    match j
    case JObj(fs) => FieldNodesExtendPath(j, path, |fs|);
    case JArr(xs) => ItemNodesExtendPath(j, path, |xs|);
    case _ =>
  }

  lemma {:induction false} FieldNodesExtendPath(obj: Json, path: string, n: nat)
    requires obj.JObj? && n <= |obj.fields|
    ensures forall m :: m in FieldNodes(obj, path, n) ==> path <= m.path
    decreases obj, 0, n
  {
    if n > 0 {
      var (k, v) := obj.fields[n - 1];
      FieldNodesExtendPath(obj, path, n - 1);
      NodesExtendPath(v, FieldPath(path, k));
      assert path <= FieldPath(path, k);
    }
  }

  lemma {:induction false} ItemNodesExtendPath(arr: Json, path: string, n: nat)
    requires arr.JArr? && n <= |arr.items|
    ensures forall m :: m in ItemNodes(arr, path, n) ==> path <= m.path
    decreases arr, 0, n
  {
    if n > 0 {
      ItemNodesExtendPath(arr, path, n - 1);
      NodesExtendPath(arr.items[n - 1], IndexPath(path, n - 1));
      assert path <= IndexPath(path, n - 1);
    }
  }
}
