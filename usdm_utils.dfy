/**
 * Navigation and lookup helpers shared by the validator and the SDTM
 * generators: the first version and design of a study, the ordering of
 * objects chained by `previousId`/`nextId`, and first-match searches over
 * titles, identifiers, organizations and eligibility criteria, each with
 * its fixed fallback.
 */
module UsdmUtils {
  import opened Wrappers
  import opened PyText
  import opened Json

  // ================================================================ navigation

  /** `data["study"]["versions"][0]["studyDesigns"][0]`, failing (None) where
      Python raises KeyError, IndexError or TypeError. */
  function GetVersionAndDesign(data: Json): (r: Option<(Json, Json)>)
    ensures r.Some? <==>
      (var versions := GetOrNull(GetOrNull(data, "study"), "versions");
       HasKey(data, "study") && HasKey(GetOrNull(data, "study"), "versions")
       && First(versions).Some?
       && HasKey(First(versions).value, "studyDesigns")
       && First(GetOrNull(First(versions).value, "studyDesigns")).Some?)
    ensures r.Some? ==>
      (var versions := GetOrNull(GetOrNull(data, "study"), "versions");
       r.value.0 == First(versions).value
       && r.value.1 == First(GetOrNull(r.value.0, "studyDesigns")).value)
  {
    match Subscript(data, "study")
    case None => None
    case Some(study) =>
      match Subscript(study, "versions")
      case None => None
      case Some(versions) =>
        match First(versions)
        case None => None
        case Some(version) =>
          match Subscript(version, "studyDesigns")
          case None => None
          case Some(designs) =>
            match First(designs)
            case None => None
            case Some(design) => Some((version, design))
  }

  /** The usual shape: a non-empty `versions` array whose first version has
      a non-empty `studyDesigns` array yields the first of each. */
  lemma GetVersionAndDesignArrays(data: Json, vs: seq<Json>, ds: seq<Json>)
    requires HasKey(data, "study") && GetOrNull(GetOrNull(data, "study"), "versions") == JArr(vs)
    requires HasKey(GetOrNull(data, "study"), "versions")
    requires vs != [] && HasKey(vs[0], "studyDesigns") && GetOrNull(vs[0], "studyDesigns") == JArr(ds)
    requires ds != []
    ensures GetVersionAndDesign(data) == Some((vs[0], ds[0]))
  {
  }

  // ================================================================ first match

  /** The index of the first element satisfying `p`. */
  function FirstIndex<T>(xs: seq<T>, p: T -> bool): (r: Option<nat>)
    ensures r.Some? ==> r.value < |xs| && p(xs[r.value])
    ensures r.Some? ==> forall j :: 0 <= j < r.value ==> !p(xs[j])
    ensures r.None? ==> forall j :: 0 <= j < |xs| ==> !p(xs[j])
  {
    if xs == [] then None
    else if p(xs[0]) then Some(0)
    else
      match FirstIndex(xs[1..], p)
      case None => None
      case Some(i) => Some(i + 1)
  }

  // ================================================================ linked lists

  predicate IsHead(item: Json) {
    GetOrNull(item, "previousId") == JNull
  }

  function NextOf(item: Json): Json {
    GetOrNull(item, "nextId")
  }

  /** `{item["id"]: item for item in items}`: a later item with the same id
      replaces an earlier one. */
  function ById(items: seq<Json>): map<Json, Json> {
    if items == [] then map[]
    else
      var last := items[|items| - 1];
      ById(items[..|items| - 1])[IdOf(last) := last]
  }

  /** Each id maps to an item carrying that id. */
  lemma {:induction false} ByIdConsistent(items: seq<Json>)
    ensures Consistent(ById(items))
  {
    if items != [] {
      ByIdConsistent(items[..|items| - 1]);
    }
  }

  /** Each id maps to an input item. */
  lemma {:induction false} ByIdValues(items: seq<Json>)
    ensures forall k :: k in ById(items) ==> ById(items)[k] in items
  {
    if items != [] {
      var init := items[..|items| - 1];
      ByIdValues(init);
      assert items == init + [items[|items| - 1]];
    }
  }

  /** Every item's id is indexed. */
  lemma {:induction false} ByIdHas(items: seq<Json>, i: nat)
    requires i < |items|
    ensures IdOf(items[i]) in ById(items)
  {
    if i < |items| - 1 {
      var init := items[..|items| - 1];
      ByIdHas(init, i);
      assert init[i] == items[i];
    }
  }

  /** The index holds exactly the ids of the items. */
  lemma ByIdKeys(items: seq<Json>, k: Json)
    ensures k in ById(items) <==> exists i :: 0 <= i < |items| && IdOf(items[i]) == k
  {
    if k in ById(items) {
      ByIdConsistent(items);
      ByIdValues(items);
      var i :| 0 <= i < |items| && items[i] == ById(items)[k];
      assert IdOf(items[i]) == k;
    }
    if exists i :: 0 <= i < |items| && IdOf(items[i]) == k {
      var i :| 0 <= i < |items| && IdOf(items[i]) == k;
      ByIdHas(items, i);
    }
  }

  /** A consistent index: every id maps to an item carrying that id. */
  predicate Consistent(byId: map<Json, Json>) {
    forall k :: k in byId ==> IdOf(byId[k]) == k
  }

  /** The index of the last item whose `previousId` is missing or null: the
      loop at usdm_utils.py:44-48 overwrites `head` on every such item. */
  function LastHead(items: seq<Json>): (r: Option<nat>)
    ensures r.Some? ==> r.value < |items| && IsHead(items[r.value])
    ensures r.Some? ==> forall j :: r.value < j < |items| ==> !IsHead(items[j])
    ensures r.None? ==> forall j :: 0 <= j < |items| ==> !IsHead(items[j])
  {
    if items == [] then None
    else if IsHead(items[|items| - 1]) then Some(|items| - 1)
    else LastHead(items[..|items| - 1])
  }

  /** The head item, if any. */
  function Head(items: seq<Json>): Option<Json> {
    match LastHead(items)
    case None => None
    case Some(h) => Some(items[h])
  }

  /** Following `nextId` from a pointer `nxt`: the walk goes on while the
      pointer is truthy, names a known id and that id is not yet visited. */
  function Follow(byId: map<Json, Json>, nxt: Json, visited: set<Json>): seq<Json>
    decreases byId.Keys - visited
  {
    if Truthy(nxt) && nxt in byId && nxt !in visited then
      [byId[nxt]] + Follow(byId, NextOf(byId[nxt]), visited + {nxt})
    else []
  }

  /** The walked prefix: the head, then the items reached from it. */
  function Walked(items: seq<Json>): seq<Json> {
    match LastHead(items)
    case None => []
    case Some(h) => [items[h]] + Follow(ById(items), NextOf(items[h]), {IdOf(items[h])})
  }

  /** The ids of a sequence of items. */
  function IdsOf(s: seq<Json>): set<Json> {
    if s == [] then {} else {IdOf(s[0])} + IdsOf(s[1..])
  }

  lemma {:induction false} IdsOfMembers(s: seq<Json>)
    ensures forall y :: y in IdsOf(s) <==> exists i :: 0 <= i < |s| && IdOf(s[i]) == y
  {
    if s != [] {
      IdsOfMembers(s[1..]);
      forall y | y in IdsOf(s) ensures exists i :: 0 <= i < |s| && IdOf(s[i]) == y {
        if y != IdOf(s[0]) {
          assert y in IdsOf(s[1..]);
          var i :| 0 <= i < |s[1..]| && IdOf(s[1..][i]) == y;
          assert IdOf(s[i + 1]) == y;
        }
      }
      forall y | exists i :: 0 <= i < |s| && IdOf(s[i]) == y ensures y in IdsOf(s) {
        var i :| 0 <= i < |s| && IdOf(s[i]) == y;
        if i > 0 { assert IdOf(s[1..][i - 1]) == y; }
      }
    }
  }

  lemma {:induction false} IdsOfAppend(s: seq<Json>, x: Json)
    ensures IdsOf(s + [x]) == IdsOf(s) + {IdOf(x)}
  {
    if s != [] {
      assert (s + [x])[1..] == s[1..] + [x];
      IdsOfAppend(s[1..], x);
    }
  }

  /** The items whose id is not in `visited`, in input order. */
  function Unvisited(items: seq<Json>, visited: set<Json>): (r: seq<Json>)
    ensures forall x :: x in r ==> x in items && IdOf(x) !in visited
  {
    if items == [] then []
    else
      var last := items[|items| - 1];
      Unvisited(items[..|items| - 1], visited) + (if IdOf(last) in visited then [] else [last])
  }

  /** The items whose id is in `visited`, in input order. */
  function Visited(items: seq<Json>, visited: set<Json>): (r: seq<Json>)
    ensures forall x :: x in r ==> x in items && IdOf(x) in visited
  {
    if items == [] then []
    else
      var last := items[|items| - 1];
      Visited(items[..|items| - 1], visited) + (if IdOf(last) in visited then [last] else [])
  }

  /** What `sort_linked_list` returns. */
  function SortLinked(items: seq<Json>): (r: seq<Json>)
    ensures items == [] ==> r == []
    ensures LastHead(items).None? ==> r == items
    ensures LastHead(items).Some? ==> |r| > 0 && r[0] == items[LastHead(items).value]
  {
    if items == [] then []
    else if LastHead(items).None? then items
    else
      var w := Walked(items);
      w + Unvisited(items, IdsOf(w))
  }

  /** The rest of the walk from the loop's `current`. */
  function Rest(byId: map<Json, Json>, current: Option<Json>, visited: set<Json>): seq<Json> {
    match current
    case None => []
    case Some(c) =>
      if IdOf(c) in visited then [] else [c] + Follow(byId, NextOf(c), visited + {IdOf(c)})
  }

  /** The index `by_id` of usdm_utils.py:40. */
  method IndexById(items: seq<Json>) returns (byId: map<Json, Json>)
    ensures byId == ById(items)
  {
    byId := map[];
    for i := 0 to |items|
      invariant byId == ById(items[..i])
    {
      assert items[..i + 1][..i] == items[..i];
      byId := byId[IdOf(items[i]) := items[i]];
    }
    assert items[..|items|] == items;
  }

  /** The head search of usdm_utils.py:44-48: the last item whose
      `previousId` is missing or null. */
  method FindHead(items: seq<Json>) returns (head: Option<Json>)
    ensures head == Head(items)
  {
    head := None;
    for i := 0 to |items|
      invariant head == Head(items[..i])
    {
      assert items[..i + 1][..i] == items[..i];
      if GetOrNull(items[i], "previousId") == JNull {
        head := Some(items[i]);
      }
    }
    assert items[..|items|] == items;
  }

  /** The walk loop of usdm_utils.py:53-60: follow `nextId` from the head
      until the pointer is falsy, unknown or already visited. */
  method WalkFrom(byId: map<Json, Json>, head: Json) returns (ordered: seq<Json>, visited: set<Json>)
    requires Consistent(byId) && IdOf(head) in byId
    ensures ordered == Rest(byId, Some(head), {})
    ensures visited == IdsOf(ordered)
  {
    hide Follow;
    ordered := [];
    visited := {};
    var current := Some(head);
    while current.Some? && IdOf(current.value) !in visited
      invariant visited <= byId.Keys
      invariant current.Some? ==> IdOf(current.value) in byId
      invariant visited == IdsOf(ordered)
      invariant ordered + Rest(byId, current, visited) == Rest(byId, Some(head), {})
      decreases byId.Keys - visited
    {
      var c := current.value;
      var nextId := NextOf(c);
      var next := if Truthy(nextId) && nextId in byId then Some(byId[nextId]) else None;
      ghost var rest := Rest(byId, next, visited + {IdOf(c)});
      RestStep(byId, c, visited);
      assert (ordered + [c]) + rest == ordered + ([c] + rest);
      IdsOfAppend(ordered, c);
      ordered := ordered + [c];
      visited := visited + {IdOf(c)};
      current := next;
    }
  }

  /** The closing loop of usdm_utils.py:62-65: append every unvisited item
      in input order. */
  method AppendUnvisited(items: seq<Json>, prefix: seq<Json>, visited: set<Json>) returns (ordered: seq<Json>)
    ensures ordered == prefix + Unvisited(items, visited)
  {
    ordered := prefix;
    for i := 0 to |items|
      invariant ordered == prefix + Unvisited(items[..i], visited)
    {
      assert items[..i + 1][..i] == items[..i];
      if IdOf(items[i]) !in visited {
        ordered := ordered + [items[i]];
      }
    }
    assert items[..|items|] == items;
  }

  /** `sort_linked_list` (usdm_utils.py:30-67).  Every item must have an
      `id`, as `item["id"]` demands. */
  method SortLinkedList(items: seq<Json>) returns (ordered: seq<Json>)
    requires Keyed(items)
    ensures ordered == SortLinked(items)
  {
    if |items| == 0 {
      return [];
    }
    var byId := IndexById(items);
    ByIdConsistent(items);
    var head := FindHead(items);
    if head.None? {
      return items;
    }
    ByIdHas(items, LastHead(items).value);
    assert head.value == items[LastHead(items).value];
    assert {} + {IdOf(head.value)} == {IdOf(head.value)};
    var walked, visited := WalkFrom(byId, head.value);
    ordered := AppendUnvisited(items, walked, visited);
  }

  // ---------------------------------------------------------------- properties

  /** The walk stops at a falsy pointer, an unknown id, or a visited id. */
  predicate Stops(byId: map<Json, Json>, nxt: Json, visited: set<Json>) {
    !Truthy(nxt) || nxt !in byId || nxt in visited
  }

  /** One turn of the walk loop of usdm_utils.py:56-60. */
  lemma RestStep(byId: map<Json, Json>, c: Json, visited: set<Json>)
    requires Consistent(byId) && IdOf(c) !in visited
    ensures var nxt := NextOf(c);
      Rest(byId, Some(c), visited)
      == [c] + Rest(byId, if Truthy(nxt) && nxt in byId then Some(byId[nxt]) else None, visited + {IdOf(c)})
  {
  }

  /** Each followed item carries the id its predecessor pointed to. */
  lemma {:induction false} FollowChain(byId: map<Json, Json>, nxt: Json, visited: set<Json>)
    requires Consistent(byId)
    ensures var f := Follow(byId, nxt, visited);
      && (f != [] ==> Truthy(nxt) && IdOf(f[0]) == nxt)
      && (forall i :: 0 <= i < |f| - 1 ==> Truthy(NextOf(f[i])) && IdOf(f[i + 1]) == NextOf(f[i]))
    decreases byId.Keys - visited
  {
    if Truthy(nxt) && nxt in byId && nxt !in visited {
      var x := byId[nxt];
      FollowChain(byId, NextOf(x), visited + {nxt});
    }
  }

  /** Items of the index, with ids outside `visited` and pairwise distinct. */
  predicate FreshWalk(f: seq<Json>, byId: map<Json, Json>, visited: set<Json>) {
    && (forall i :: 0 <= i < |f| ==> IdOf(f[i]) !in visited && f[i] in byId.Values)
    && (forall i, j :: 0 <= i < j < |f| ==> IdOf(f[i]) != IdOf(f[j]))
  }

  /** Followed items are indexed items with fresh, pairwise distinct ids. */
  lemma {:induction false} FollowFresh(byId: map<Json, Json>, nxt: Json, visited: set<Json>)
    requires Consistent(byId)
    ensures FreshWalk(Follow(byId, nxt, visited), byId, visited)
    decreases byId.Keys - visited
  {
    if Truthy(nxt) && nxt in byId && nxt !in visited {
      var x := byId[nxt];
      var v' := visited + {nxt};
      var g := Follow(byId, NextOf(x), v');
      FollowFresh(byId, NextOf(x), v');
      var f := Follow(byId, nxt, visited);
      assert f == [x] + g;
      assert IdOf(x) == nxt;
      assert x in byId.Values;
      forall i | 0 <= i < |f| ensures IdOf(f[i]) !in visited && f[i] in byId.Values {
        if i > 0 {
          assert f[i] == g[i - 1];
        }
      }
      forall i, j | 0 <= i < j < |f| ensures IdOf(f[i]) != IdOf(f[j]) {
        assert f[j] == g[j - 1];
        assert IdOf(g[j - 1]) !in v';
        if i > 0 {
          assert f[i] == g[i - 1];
        }
      }
    }
  }

  /** The walk ends at a falsy pointer, an unknown id or a visited id. */
  lemma {:induction false} FollowStops(byId: map<Json, Json>, nxt: Json, visited: set<Json>)
    requires Consistent(byId)
    ensures var f := Follow(byId, nxt, visited);
      && (f == [] ==> Stops(byId, nxt, visited))
      && (f != [] ==> Stops(byId, NextOf(f[|f| - 1]), visited + IdsOf(f)))
    decreases byId.Keys - visited
  {
    var f := Follow(byId, nxt, visited);
    if Truthy(nxt) && nxt in byId && nxt !in visited {
      var x := byId[nxt];
      var g := Follow(byId, NextOf(x), visited + {nxt});
      FollowStops(byId, NextOf(x), visited + {nxt});
      assert f == [x] + g;
      assert f[1..] == g;
      if g != [] {
        assert f[|f| - 1] == g[|g| - 1];
      }
    }
  }

  /** In the walked prefix each item's id is the previous item's `nextId`,
      no id repeats, and the walk ended for one of the three reasons of
      usdm_utils.py:56-60. */
  lemma WalkedChain(items: seq<Json>)
    ensures var w := Walked(items);
      && (forall i :: 0 <= i < |w| - 1 ==> Truthy(NextOf(w[i])) && IdOf(w[i + 1]) == NextOf(w[i]))
      && (forall i, j :: 0 <= i < j < |w| ==> IdOf(w[i]) != IdOf(w[j]))
      && (w != [] ==> Stops(ById(items), NextOf(w[|w| - 1]), IdsOf(w)))
  {
    var w := Walked(items);
    match LastHead(items)
    case None =>
    case Some(h) =>
      var byId := ById(items);
      var hd := items[h];
      var f := Follow(byId, NextOf(hd), {IdOf(hd)});
      ByIdConsistent(items);
      FollowChain(byId, NextOf(hd), {IdOf(hd)});
      FollowFresh(byId, NextOf(hd), {IdOf(hd)});
      assert FreshWalk(f, byId, {IdOf(hd)});
      FollowStops(byId, NextOf(hd), {IdOf(hd)});
      assert w == [hd] + f;
      assert w[1..] == f;
      if f != [] {
        assert w[|w| - 1] == f[|f| - 1];
      }
  }

  /** Every walked item is an input item. */
  lemma WalkedFromItems(items: seq<Json>)
    ensures forall x :: x in Walked(items) ==> x in items
  {
    match LastHead(items)
    case None =>
    case Some(h) =>
      var byId := ById(items);
      ByIdConsistent(items);
      ByIdValues(items);
      FollowFresh(byId, NextOf(items[h]), {IdOf(items[h])});
      var f := Follow(byId, NextOf(items[h]), {IdOf(items[h])});
      assert FreshWalk(f, byId, {IdOf(items[h])});
      forall x | x in Walked(items) ensures x in items {
        if x != items[h] {
          assert x in f;
          var i :| 0 <= i < |f| && f[i] == x;
          assert x in byId.Values;
        }
      }
  }

  /** The positions of the items whose id is not in `visited`, ascending. */
  function UnvisitedIndices(items: seq<Json>, visited: set<Json>): seq<nat> {
    if items == [] then []
    else
      UnvisitedIndices(items[..|items| - 1], visited)
      + (if IdOf(items[|items| - 1]) in visited then [] else [|items| - 1])
  }

  /** The positions are in range, ascending, and pick out `Unvisited`. */
  lemma {:induction false} UnvisitedAt(items: seq<Json>, visited: set<Json>)
    ensures var idx := UnvisitedIndices(items, visited);
      |idx| == |Unvisited(items, visited)|
      && (forall k :: 0 <= k < |idx| ==> idx[k] < |items| && Unvisited(items, visited)[k] == items[idx[k]])
      && (forall k, l :: 0 <= k < |idx| && 0 <= l < |idx| ==> (k < l <==> idx[k] < idx[l]))
  {
    if items != [] {
      var n := |items| - 1;
      var init := items[..n];
      UnvisitedAt(init, visited);
      var idx0 := UnvisitedIndices(init, visited);
      var u0 := Unvisited(init, visited);
      var last := if IdOf(items[n]) in visited then [] else [n];
      var idx := idx0 + last;
      var u := u0 + (if IdOf(items[n]) in visited then [] else [items[n]]);
      assert UnvisitedIndices(items, visited) == idx;
      assert Unvisited(items, visited) == u;
      forall k | 0 <= k < |idx| ensures idx[k] < |items| && u[k] == items[idx[k]] {
        if k < |idx0| { assert init[idx0[k]] == items[idx0[k]]; }
      }
    }
  }

  /** A position is listed exactly when its item's id is not visited. */
  lemma {:induction false} UnvisitedCover(items: seq<Json>, visited: set<Json>)
    ensures forall i :: 0 <= i < |items| ==>
      (i in UnvisitedIndices(items, visited) <==> IdOf(items[i]) !in visited)
  {
    hide Unvisited;
    if items != [] {
      var n := |items| - 1;
      var init := items[..n];
      UnvisitedCover(init, visited);
      UnvisitedAt(init, visited);
      var idx0 := UnvisitedIndices(init, visited);
      var last: seq<nat> := if IdOf(items[n]) in visited then [] else [n];
      assert UnvisitedIndices(items, visited) == idx0 + last;
      assert n !in idx0;
      forall i | 0 <= i < |items|
        ensures i in idx0 + last <==> IdOf(items[i]) !in visited
      {
        if i < n {
          assert init[i] == items[i];
          assert i !in last;
          assert i in idx0 + last <==> i in idx0;
        } else {
          assert i in idx0 + last <==> i in last;
        }
      }
    }
  }

  /** `Unvisited` keeps exactly the items whose id is not visited, at
      ascending positions of the input: a subsequence that misses none. */
  lemma UnvisitedIndexed(items: seq<Json>, visited: set<Json>)
    ensures var idx := UnvisitedIndices(items, visited);
      |idx| == |Unvisited(items, visited)|
      && (forall k :: 0 <= k < |idx| ==> idx[k] < |items| && Unvisited(items, visited)[k] == items[idx[k]])
      && (forall k, l :: 0 <= k < |idx| && 0 <= l < |idx| ==> (k < l <==> idx[k] < idx[l]))
      && (forall i :: 0 <= i < |items| ==> (i in idx <==> IdOf(items[i]) !in visited))
  {
    UnvisitedAt(items, visited);
    UnvisitedCover(items, visited);
  }

  /** Whatever precedes it, the unvisited tail holds every item whose id is
      not visited, in input order, and nothing else. */
  lemma UnvisitedTail(items: seq<Json>, w: seq<Json>, v: set<Json>)
    ensures var r := w + Unvisited(items, v);
      (forall k :: |w| <= k < |r| ==> r[k] in items && IdOf(r[k]) !in v)
      && (forall i :: 0 <= i < |items| && IdOf(items[i]) !in v ==>
            exists k :: |w| <= k < |r| && r[k] == items[i])
      && (forall i, j :: 0 <= i < j < |items| && IdOf(items[i]) !in v && IdOf(items[j]) !in v ==>
            exists k, l :: |w| <= k < l < |r| && r[k] == items[i] && r[l] == items[j])
  {
    var u := Unvisited(items, v);
    var r := w + u;
    var idx := UnvisitedIndices(items, v);
    UnvisitedIndexed(items, v);
    forall k | |w| <= k < |r| ensures r[k] in items && IdOf(r[k]) !in v {
      assert r[k] == u[k - |w|];
    }
    forall i | 0 <= i < |items| && IdOf(items[i]) !in v
      ensures exists k :: |w| <= k < |r| && r[k] == items[i]
    {
      var p :| 0 <= p < |idx| && idx[p] == i;
      assert r[|w| + p] == u[p];
    }
    forall i, j | 0 <= i < j < |items| && IdOf(items[i]) !in v && IdOf(items[j]) !in v
      ensures exists k, l :: |w| <= k < l < |r| && r[k] == items[i] && r[l] == items[j]
    {
      var p :| 0 <= p < |idx| && idx[p] == i;
      var q :| 0 <= q < |idx| && idx[q] == j;
      assert r[|w| + p] == u[p] && r[|w| + q] == u[q];
    }
  }

  /** After the walk, the output holds every item the walk did not reach,
      in input order, and nothing the walk reached. */
  lemma SortLinkedTail(items: seq<Json>)
    requires LastHead(items).Some?
    ensures var w := Walked(items); var r := SortLinked(items); var v := IdsOf(w);
      r[..|w|] == w
      && (forall k :: |w| <= k < |r| ==> r[k] in items && IdOf(r[k]) !in v)
      && (forall i :: 0 <= i < |items| && IdOf(items[i]) !in v ==>
            exists k :: |w| <= k < |r| && r[k] == items[i])
      && (forall i, j :: 0 <= i < j < |items| && IdOf(items[i]) !in v && IdOf(items[j]) !in v ==>
            exists k, l :: |w| <= k < l < |r| && r[k] == items[i] && r[l] == items[j])
  {
    var w := Walked(items);
    assert SortLinked(items) == w + Unvisited(items, IdsOf(w));
    UnvisitedTail(items, w, IdsOf(w));
  }

  // ---------------------------------------------------------------- permutation

  predicate UniqueIds(items: seq<Json>) {
    forall i, j :: 0 <= i < j < |items| ==> IdOf(items[i]) != IdOf(items[j])
  }

  predicate Distinct(s: seq<Json>) {
    forall i, j :: 0 <= i < j < |s| ==> s[i] != s[j]
  }

  lemma {:induction false} DistinctCounts(s: seq<Json>)
    requires Distinct(s)
    ensures forall x :: multiset(s)[x] == if x in s then 1 else 0
  {
    if s != [] {
      var init := s[..|s| - 1];
      assert s == init + [s[|s| - 1]];
      DistinctCounts(init);
    }
  }

  lemma DistinctSameElements(a: seq<Json>, b: seq<Json>)
    requires Distinct(a) && Distinct(b)
    requires forall x :: x in a <==> x in b
    ensures multiset(a) == multiset(b)
  {
    DistinctCounts(a);
    DistinctCounts(b);
  }

  lemma {:induction false} SplitByVisited(items: seq<Json>, v: set<Json>)
    ensures multiset(items) == multiset(Visited(items, v)) + multiset(Unvisited(items, v))
  {
    if items != [] {
      var init := items[..|items| - 1];
      assert items == init + [items[|items| - 1]];
      SplitByVisited(init, v);
    }
  }

  lemma {:induction false} VisitedDistinct(items: seq<Json>, v: set<Json>)
    requires Distinct(items)
    ensures Distinct(Visited(items, v))
  {
    if items != [] {
      var init := items[..|items| - 1];
      assert forall i, j :: 0 <= i < j < |init| ==> init[i] != init[j] by {
        forall i, j | 0 <= i < j < |init| ensures init[i] != init[j] {
          assert init[i] == items[i] && init[j] == items[j];
        }
      }
      VisitedDistinct(init, v);
      var last := items[|items| - 1];
      assert last !in init by {
        forall i | 0 <= i < |init| ensures init[i] != last {
          assert init[i] == items[i];
        }
      }
    }
  }

  /** With unique ids, the output is a permutation of the input. */
  lemma SortLinkedPermutation(items: seq<Json>)
    requires UniqueIds(items)
    ensures multiset(SortLinked(items)) == multiset(items)
  {
    hide Walked, Visited, Unvisited, Follow;
    if items != [] && LastHead(items).Some? {
      var w := Walked(items);
      var v := IdsOf(w);
      WalkedChain(items);
      WalkedFromItems(items);
      SplitByVisited(items, v);
      assert Distinct(items);
      VisitedDistinct(items, v);
      var vis := Visited(items, v);
      IdsOfMembers(w);
      forall x ensures x in w <==> x in vis {
        if x in w {
          var i :| 0 <= i < |w| && w[i] == x;
          assert IdOf(x) in v;
          VisitedHas(items, v, x);
        }
        if x in vis {
          assert x in items && IdOf(x) in v;
          var i :| 0 <= i < |w| && IdOf(x) == IdOf(w[i]);
          assert w[i] in items;
          var a :| 0 <= a < |items| && items[a] == x;
          var b :| 0 <= b < |items| && items[b] == w[i];
          assert a == b;
        }
      }
      DistinctSameElements(w, vis);
    }
  }

  lemma {:induction false} VisitedHas(items: seq<Json>, v: set<Json>, x: Json)
    requires x in items && IdOf(x) in v
    ensures x in Visited(items, v)
  {
    var init := items[..|items| - 1];
    if x != items[|items| - 1] {
      assert items == init + [items[|items| - 1]];
      VisitedHas(init, v, x);
    }
  }

  // ================================================================ lookups

  /** `resolve_organization`: the first organization whose `id` equals
      `scopeId`. */
  function ResolveOrganization(scopeId: Json, organizations: seq<Json>): (r: Option<Json>)
    ensures r.Some? <==> exists i :: 0 <= i < |organizations| && IdOf(organizations[i]) == scopeId
    ensures r.Some? ==>
      exists i :: 0 <= i < |organizations| && organizations[i] == r.value
        && IdOf(r.value) == scopeId
        && forall j :: 0 <= j < i ==> IdOf(organizations[j]) != scopeId
  {
    match FirstIndex(organizations, (o: Json) => IdOf(o) == scopeId)
    case None => None
    case Some(i) => Some(organizations[i])
  }

  /** The lowered type decode of an organization. */
  function OrgTypeDecode(org: Json): string {
    Lower(DecodeOf(org, "type"))
  }

  /** A study identifier whose `scopeId` resolves to a truthy organization
      whose lowered type decode `accept` admits. */
  predicate ScopedTo(sid: Json, organizations: seq<Json>, accept: string -> bool) {
    var org := ResolveOrganization(Get(sid, "scopeId", JStr("")), organizations);
    org.Some? && Truthy(org.value) && accept(OrgTypeDecode(org.value))
  }

  /** The shared loop of `get_study_id`, `get_sponsor_info` and
      `get_registry_id`: the first identifier scoped to an accepted
      organization. */
  function FirstScoped(version: Json, accept: string -> bool): (r: Option<Json>)
    ensures var sids := ArrField(version, "studyIdentifiers");
      var orgs := ArrField(version, "organizations");
      && (r.Some? <==> exists i :: 0 <= i < |sids| && ScopedTo(sids[i], orgs, accept))
      && (r.Some? ==> exists i :: 0 <= i < |sids| && sids[i] == r.value && ScopedTo(sids[i], orgs, accept)
                        && forall j :: 0 <= j < i ==> !ScopedTo(sids[j], orgs, accept))
  {
    var sids := ArrField(version, "studyIdentifiers");
    var orgs := ArrField(version, "organizations");
    match FirstIndex(sids, (s: Json) => ScopedTo(s, orgs, accept))
    case None => None
    case Some(i) => Some(sids[i])
  }

  const OfficialStudyTitle: string := "Official Study Title"
  const DrugCompany: string := "Drug Company"

  predicate TitleMatches(title: Json, titleType: string) {
    Contains(Lower(DecodeOf(title, "type")), Lower(titleType))
  }

  /** `get_study_title`: the text of the first title whose type decode
      contains `titleType` (ignoring case); else the first title's text;
      else "". */
  function GetStudyTitle(version: Json, titleType: string): (r: Json)
    ensures var titles := ArrField(version, "titles");
      (exists i :: 0 <= i < |titles| && TitleMatches(titles[i], titleType)) ==>
        exists i :: 0 <= i < |titles| && TitleMatches(titles[i], titleType)
          && r == Get(titles[i], "text", JStr(""))
          && forall j :: 0 <= j < i ==> !TitleMatches(titles[j], titleType)
    ensures var titles := ArrField(version, "titles");
      (forall i :: 0 <= i < |titles| ==> !TitleMatches(titles[i], titleType)) ==>
        r == if titles == [] then JStr("") else Get(titles[0], "text", JStr(""))
  {
    var titles := ArrField(version, "titles");
    match FirstIndex(titles, (t: Json) => TitleMatches(t, titleType))
    case Some(i) => Get(titles[i], "text", JStr(""))
    case None => if titles != [] then Get(titles[0], "text", JStr("")) else JStr("")
  }

  /** `get_study_id`: the text of the first identifier whose organization's
      type decode contains `orgType` (ignoring case); else the first
      identifier's text (default "UNKNOWN"); else "UNKNOWN". */
  function GetStudyId(version: Json, orgType: string): (r: Json)
    ensures var sids := ArrField(version, "studyIdentifiers");
      var accept := (d: string) => Contains(d, Lower(orgType));
      FirstScoped(version, accept).Some? ==> r == Get(FirstScoped(version, accept).value, "text", JStr(""))
    ensures var sids := ArrField(version, "studyIdentifiers");
      var orgs := ArrField(version, "organizations");
      (forall i :: 0 <= i < |sids| ==> !ScopedTo(sids[i], orgs, (d: string) => Contains(d, Lower(orgType)))) ==>
        r == if sids == [] then JStr("UNKNOWN") else Get(sids[0], "text", JStr("UNKNOWN"))
  {
    var sids := ArrField(version, "studyIdentifiers");
    match FirstScoped(version, (d: string) => Contains(d, Lower(orgType)))
    case Some(sid) => Get(sid, "text", JStr(""))
    case None => if sids != [] then Get(sids[0], "text", JStr("UNKNOWN")) else JStr("UNKNOWN")
  }

  datatype SponsorInfo = SponsorInfo(name: Json, protocolNumber: Json)

  predicate IsSponsorType(d: string) {
    Contains(d, "drug company") || Contains(d, "sponsor")
  }

  /** `get_sponsor_info`: from the first identifier scoped to a drug company
      or sponsor, the organization's name (or its label, default "TBD") and
      the identifier's text (default "TBD"); else TBD/TBD. */
  function GetSponsorInfo(version: Json): (r: SponsorInfo)
    ensures var sids := ArrField(version, "studyIdentifiers");
      var orgs := ArrField(version, "organizations");
      (forall i :: 0 <= i < |sids| ==> !ScopedTo(sids[i], orgs, IsSponsorType)) ==>
        r == SponsorInfo(JStr("TBD"), JStr("TBD"))
    ensures var orgs := ArrField(version, "organizations");
      FirstScoped(version, IsSponsorType).Some? ==>
        var sid := FirstScoped(version, IsSponsorType).value;
        var org := ResolveOrganization(Get(sid, "scopeId", JStr("")), orgs).value;
        r.protocolNumber == Get(sid, "text", JStr("TBD"))
        && r.name == Or(Get(org, "name", JStr("")), Get(org, "label", JStr("TBD")))
  {
    var orgs := ArrField(version, "organizations");
    match FirstScoped(version, IsSponsorType)
    case Some(sid) =>
      var org := ResolveOrganization(Get(sid, "scopeId", JStr("")), orgs).value;
      SponsorInfo(Or(Get(org, "name", JStr("")), Get(org, "label", JStr("TBD"))),
                  Get(sid, "text", JStr("TBD")))
    case None => SponsorInfo(JStr("TBD"), JStr("TBD"))
  }

  predicate IsRegistryType(d: string) {
    Contains(d, "registry")
  }

  /** `get_registry_id`: the text of the first identifier scoped to a
      registry; else "". */
  function GetRegistryId(version: Json): (r: Json)
    ensures var sids := ArrField(version, "studyIdentifiers");
      var orgs := ArrField(version, "organizations");
      (forall i :: 0 <= i < |sids| ==> !ScopedTo(sids[i], orgs, IsRegistryType)) ==> r == JStr("")
    ensures FirstScoped(version, IsRegistryType).Some? ==>
      r == Get(FirstScoped(version, IsRegistryType).value, "text", JStr(""))
  {
    match FirstScoped(version, IsRegistryType)
    case Some(sid) => Get(sid, "text", JStr(""))
    case None => JStr("")
  }

  /** An item with the wanted id and a truthy `text`. */
  predicate HasItemText(item: Json, itemId: Json) {
    IdOf(item) == itemId && Truthy(Get(item, "text", JStr("")))
  }

  /** The criterion's own fallback: `description or label or name`. */
  function OwnCriterionText(criterion: Json): (r: Json)
    ensures Truthy(Get(criterion, "description", JStr(""))) ==> r == Get(criterion, "description", JStr(""))
    ensures (!Truthy(Get(criterion, "description", JStr(""))) && Truthy(Get(criterion, "label", JStr(""))))
      ==> r == Get(criterion, "label", JStr(""))
    ensures (!Truthy(Get(criterion, "description", JStr(""))) && !Truthy(Get(criterion, "label", JStr(""))))
      ==> r == Get(criterion, "name", JStr(""))
  {
    Or(Or(Get(criterion, "description", JStr("")), Get(criterion, "label", JStr(""))),
       Get(criterion, "name", JStr("")))
  }

  /** `get_criterion_text`.  `clean` stands for the tag-stripping regular
      expressions and `strip()` applied to an item's text. */
  function GetCriterionText(criterion: Json, criterionItems: seq<Json>, clean: Json -> Json): (r: Json)
    ensures var itemId := GetOrNull(criterion, "criterionItemId");
      Truthy(itemId) && (exists i :: 0 <= i < |criterionItems| && HasItemText(criterionItems[i], itemId)) ==>
        exists i :: 0 <= i < |criterionItems| && HasItemText(criterionItems[i], itemId)
          && r == clean(Get(criterionItems[i], "text", JStr("")))
          && forall j :: 0 <= j < i ==> !HasItemText(criterionItems[j], itemId)
    ensures var itemId := GetOrNull(criterion, "criterionItemId");
      !Truthy(itemId) || (forall i :: 0 <= i < |criterionItems| ==> !HasItemText(criterionItems[i], itemId)) ==>
        r == OwnCriterionText(criterion)
  {
    var itemId := GetOrNull(criterion, "criterionItemId");
    if Truthy(itemId) then
      match FirstIndex(criterionItems, (it: Json) => HasItemText(it, itemId))
      case Some(i) => clean(Get(criterionItems[i], "text", JStr("")))
      case None => OwnCriterionText(criterion)
    else OwnCriterionText(criterion)
  }

  /** `str(int(q.get("value", 0)))` for a Quantity: an integer or a boolean
      converts, anything else is not modelled as convertible. */
  function QuantityText(q: Json): (r: Option<string>)
    ensures Get(q, "value", JInt(0)).JInt? ==> r == Some(IntToString(Get(q, "value", JInt(0)).n))
  {
    match Get(q, "value", JInt(0))
    case JInt(n) => Some(IntToString(n))
    case JBool(b) => Some(if b then "1" else "0")
    case _ => None
  }

  /** The text of a non-null enrollment bound: a Quantity object gives its
      value, anything else its `str`. */
  function BoundText(v: Json): Option<string> {
    if v.JObj? then QuantityText(v) else Some(PyStr(v))
  }

  /** `get_enrollment_number`: "TBD" without a population; otherwise the
      `maxValue` when present, else the `minValue`, else "TBD". */
  function GetEnrollmentNumber(design: Json): (r: Option<string>)
    ensures !Truthy(GetOrNull(design, "population")) ==> r == Some("TBD")
    ensures var enroll := Get(GetOrNull(design, "population"), "plannedEnrollmentNumber", EmptyObj);
      Truthy(GetOrNull(design, "population")) ==>
        && (GetOrNull(enroll, "maxValue") != JNull ==> r == BoundText(GetOrNull(enroll, "maxValue")))
        && ((GetOrNull(enroll, "maxValue") == JNull && GetOrNull(enroll, "minValue") != JNull)
            ==> r == BoundText(GetOrNull(enroll, "minValue")))
        && ((GetOrNull(enroll, "maxValue") == JNull && GetOrNull(enroll, "minValue") == JNull)
            ==> r == Some("TBD"))
  {
    var pop := GetOrNull(design, "population");
    if !Truthy(pop) then Some("TBD")
    else
      var enroll := Get(pop, "plannedEnrollmentNumber", EmptyObj);
      var maxVal := GetOrNull(enroll, "maxValue");
      if maxVal.JObj? then QuantityText(maxVal)
      else if maxVal != JNull then Some(PyStr(maxVal))
      else
        var minVal := GetOrNull(enroll, "minValue");
        if minVal.JObj? then QuantityText(minVal)
        else if minVal != JNull then Some(PyStr(minVal))
        else Some("TBD")
  }
}
