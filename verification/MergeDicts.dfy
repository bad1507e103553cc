/** The merge that combines what several endpoints tell: nested dictionaries, where what is already there
    prevails. */
module MergeDicts {
  import opened Text

  /** A value, or Python's None, or a dictionary. */
  datatype Tree<K, V> = Leaf(value: Option<V>) | Node(children: map<K, Tree<K, V>>)

  function At<K, V>(m: map<K, Tree<K, V>>, key: K): Tree<K, V> {
    if key in m then m[key] else Leaf(None)
  }

  /** What `y` makes of `x`; None where a dictionary meets a value, which has no copy. */
  function Merge<K, V>(x: Tree<K, V>, y: Tree<K, V>): Option<Tree<K, V>>
    decreases y
  {
    match y
    case Leaf(_) => Some(if x.Leaf? && x.value.None? then y else x)
    case Node(ys) =>
      if x.Leaf? && x.value.Some? then None
      else
        var xs := if x.Node? then x.children else map[];
        if forall k | k in ys :: Merge(At(xs, k), ys[k]).Some? then
          Some(Node(map k | k in xs.Keys + ys.Keys :: if k in ys then Merge(At(xs, k), ys[k]).value else xs[k]))
        else None
  }

  lemma NoneAsEmpty<K, V>(ys: map<K, Tree<K, V>>)
    ensures Merge(Leaf(None), Node(ys)) == Merge(Node(map[]), Node(ys))
  {
  }

  lemma MergedKeyByKey<K, V>(xs: map<K, Tree<K, V>>, ys: map<K, Tree<K, V>>, m: map<K, Tree<K, V>>)
    requires m.Keys == xs.Keys + ys.Keys
    requires forall k | k in ys :: Merge(At(xs, k), ys[k]) == Some(m[k])
    requires forall k | k in xs && k !in ys :: m[k] == xs[k]
    ensures Merge(Node(xs), Node(ys)) == Some(Node(m))
  {
    var merged := Merge(Node(xs), Node(ys)).value.children;
    assert merged.Keys == m.Keys;
    assert forall k | k in m :: merged[k] == m[k];
    assert merged == m;
  }

  /** `merge_dicts`: a copy of the first dictionary, filled key by key from the second. */
  method MergeDicts<K(==), V>(data: Tree<K, V>, mergeData: map<K, Tree<K, V>>) returns (r: Option<Tree<K, V>>)
    requires !(data.Leaf? && data.value.None?)
    ensures r == Merge(data, Node(mergeData))
    decreases Node(mergeData)
  {
    if data.Leaf? {
      return None;
    }
    var merged := data.children;
    var todo := mergeData.Keys;
    while todo != {}
      invariant todo <= mergeData.Keys
      invariant merged.Keys == data.children.Keys + (mergeData.Keys - todo)
      invariant forall k | k in mergeData.Keys - todo ::
                  Merge(At(data.children, k), mergeData[k]) == Some(merged[k])
      invariant forall k | k in data.children && (k in todo || k !in mergeData) :: merged[k] == data.children[k]
      decreases todo
    {
      var key :| key in todo;
      var value := mergeData[key];
      if value.Node? {
        var current := if key !in merged || (merged[key].Leaf? && merged[key].value.None?) then Node(map[]) else merged[key];
        var sub := MergeDicts(current, value.children);
        NoneAsEmpty<K, V>(value.children);
        if sub.None? {
          return None;
        }
        merged := merged[key := sub.value];
      } else if key !in merged || (merged[key].Leaf? && merged[key].value.None?) {
        merged := merged[key := value];
      }
      todo := todo - {key};
    }
    MergedKeyByKey(data.children, mergeData, merged);
    r := Some(Node(merged));
  }

  // ---- what a tree tells, path by path ---------------------------------------------------------

  datatype Found<V> = Absent | Null | Scalar(value: V) | Dict

  function Look<K, V>(t: Tree<K, V>, path: seq<K>): Found<V>
    decreases t
  {
    if path == [] then if t.Node? then Dict else if t.value.None? then Null else Scalar(t.value.value)
    else if t.Node? && path[0] in t.children then Look(t.children[path[0]], path[1..])
    else Absent
  }

  /** What is there already prevails, but None and nothing give way. */
  function Prefer<V>(a: Found<V>, b: Found<V>): Found<V> {
    if a.Absent? || (a.Null? && !b.Absent?) then b else a
  }

  lemma {:induction false} LookMerged<K, V>(x: Tree<K, V>, y: Tree<K, V>, path: seq<K>)
    requires Merge(x, y).Some?
    ensures Look(Merge(x, y).value, path) == Prefer(Look(x, path), Look(y, path))
    decreases y
  {
    if y.Node? && path != [] {
      var xs := if x.Node? then x.children else map[];
      var k := path[0];
      if k in y.children {
        LookMerged(At(xs, k), y.children[k], path[1..]);
      }
    }
  }

  /** A value met by a dictionary. */
  predicate Clash<K, V>(x: Tree<K, V>, y: Tree<K, V>, path: seq<K>) {
    Look(x, path).Scalar? && Look(y, path).Dict?
  }

  lemma {:induction false} ClashFails<K, V>(x: Tree<K, V>, y: Tree<K, V>, path: seq<K>)
    requires Clash(x, y, path)
    ensures Merge(x, y).None?
    decreases y
  {
    if path != [] {
      var k := path[0];
      ClashFails(x.children[k], y.children[k], path[1..]);
      assert At(x.children, k) == x.children[k];
    }
  }

  lemma {:induction false} FailureClashes<K, V>(x: Tree<K, V>, y: Tree<K, V>) returns (path: seq<K>)
    requires Merge(x, y).None?
    ensures Clash(x, y, path)
    decreases y
  {
    if x.Leaf? && x.value.Some? {
      path := [];
    } else {
      var xs := if x.Node? then x.children else map[];
      var k :| k in y.children && Merge(At(xs, k), y.children[k]).None?;
      var rest := FailureClashes(At(xs, k), y.children[k]);
      path := [k] + rest;
      assert path[1..] == rest && k in xs;
    }
  }

  /** A merge fails exactly when somewhere a value is met by a dictionary. */
  lemma MergeFailsIff<K(!new), V>(x: Tree<K, V>, y: Tree<K, V>)
    ensures Merge(x, y).None? <==> exists path :: Clash(x, y, path)
  {
    if Merge(x, y).None? {
      var path := FailureClashes(x, y);
    } else {
      forall path ensures !Clash(x, y, path) {
        if Clash(x, y, path) {
          ClashFails(x, y, path);
        }
      }
    }
  }

  /** Trees that tell the same everywhere are the same. */
  lemma {:induction false} SameEverywhere<K(!new), V>(x: Tree<K, V>, y: Tree<K, V>)
    requires forall path :: Look(x, path) == Look(y, path)
    ensures x == y
    decreases x
  {
    assert Look(x, []) == Look(y, []);
    if x.Node? {
      forall k ensures k in x.children <==> k in y.children {
        LookHere(x, k);
        LookHere(y, k);
        assert Look(x, [k]) == Look(y, [k]);
      }
      forall k | k in x.children ensures x.children[k] == y.children[k] {
        forall path ensures Look(x.children[k], path) == Look(y.children[k], path) {
          assert ([k] + path)[1..] == path;
          assert Look(x, [k] + path) == Look(y, [k] + path);
        }
        SameEverywhere(x.children[k], y.children[k]);
      }
      assert x.children == y.children;
    }
  }

  lemma LookHere<K, V>(t: Tree<K, V>, k: K)
    ensures !Look(t, [k]).Absent? <==> t.Node? && k in t.children
  {
  }

  // ---- the algebra -----------------------------------------------------------------------------

  lemma MergeIdempotent<K(!new), V>(x: Tree<K, V>)
    ensures Merge(x, x) == Some(x)
  {
    MergeFailsIff(x, x);
    assert Merge(x, x).Some?;
    forall path ensures Look(Merge(x, x).value, path) == Look(x, path) {
      LookMerged(x, x, path);
    }
    SameEverywhere(Merge(x, x).value, x);
  }

  function MergeAlso<K, V>(x: Option<Tree<K, V>>, y: Tree<K, V>): Option<Tree<K, V>> {
    if x.None? then None else Merge(x.value, y)
  }

  /** Merging the later two first succeeds exactly when they do not clash and merging in order succeeds,
      and the outcome is the same. */
  lemma MergeAssociative<K(!new), V>(x: Tree<K, V>, y: Tree<K, V>, z: Tree<K, V>)
    ensures var inOrder := MergeAlso(Merge(x, y), z);
            var yz := Merge(y, z);
            && ((yz.Some? && Merge(x, yz.value).Some?) <==> (yz.Some? && inOrder.Some?))
            && (yz.Some? && inOrder.Some? ==> Merge(x, yz.value) == inOrder)
  {
    var xy, yz := Merge(x, y), Merge(y, z);
    if yz.Some? {
      SucceedsTogether(x, y, z);
      if xy.Some? && Merge(xy.value, z).Some? {
        var l, r := Merge(xy.value, z).value, Merge(x, yz.value).value;
        forall path ensures Look(l, path) == Look(r, path) {
          LookMerged(x, y, path);
          LookMerged(y, z, path);
          LookMerged(xy.value, z, path);
          LookMerged(x, yz.value, path);
        }
        SameEverywhere(l, r);
      }
    }
  }

  lemma SucceedsTogether<K(!new), V>(x: Tree<K, V>, y: Tree<K, V>, z: Tree<K, V>)
    requires Merge(y, z).Some?
    ensures Merge(x, Merge(y, z).value).Some? <==> Merge(x, y).Some? && Merge(Merge(x, y).value, z).Some?
  {
    var yz := Merge(y, z).value;
    if Merge(x, yz).None? {
      var path := FailureClashes(x, yz);
      LookMerged(y, z, path);
      if Clash(x, y, path) {
        ClashFails(x, y, path);
      } else if Merge(x, y).Some? {
        LookMerged(x, y, path);
        ClashFails(Merge(x, y).value, z, path);
      }
    } else if Merge(x, y).None? {
      var path := FailureClashes(x, y);
      LookMerged(y, z, path);
      ClashFails(x, yz, path);
    } else if Merge(Merge(x, y).value, z).None? {
      var path := FailureClashes(Merge(x, y).value, z);
      LookMerged(x, y, path);
      LookMerged(y, z, path);
      if Clash(y, z, path) {
        ClashFails(y, z, path);
      } else {
        ClashFails(x, yz, path);
      }
    }
  }

  // ---- several endpoints -----------------------------------------------------------------------

  function MergeAll<K, V>(answers: seq<Tree<K, V>>): Option<Tree<K, V>>
    decreases |answers|
  {
    if answers == [] then Some(Node(map[]))
    else MergeAlso(MergeAll(answers[..|answers| - 1]), answers[|answers| - 1])
  }

  /** The first answer with a value or dictionary there; failing that None, if any answer has it. */
  ghost predicate FirstTold<K, V>(answers: seq<Tree<K, V>>, path: seq<K>, found: Found<V>) {
    if found.Scalar? || found.Dict? then
      exists i | 0 <= i < |answers| :: Look(answers[i], path) == found
                                       && forall j | 0 <= j < i :: Look(answers[j], path) in {Absent, Null}
    else
      && (forall i | 0 <= i < |answers| :: Look(answers[i], path) in {Absent, Null})
      && (found.Null? <==> exists i | 0 <= i < |answers| :: Look(answers[i], path).Null?)
  }

  /** Merging endpoint after endpoint yields everywhere the first thing told, and loses no key. */
  lemma {:induction false} MergeAllTellsFirst<K, V>(answers: seq<Tree<K, V>>, path: seq<K>)
    requires path != [] && MergeAll(answers).Some?
    ensures FirstTold(answers, path, Look(MergeAll(answers).value, path))
    decreases |answers|
  {
    if answers != [] {
      var n := |answers| - 1;
      var before := MergeAll(answers[..n]).value;
      MergeAllTellsFirst(answers[..n], path);
      LookMerged(before, answers[n], path);
      assert forall i | 0 <= i < n :: answers[i] == answers[..n][i];
    }
  }

  predicate Tells<K, V>(r: Option<Tree<K, V>>) {
    r.Some? && r.value.Node? && r.value.children != map[]
  }

  /** One read over its endpoints: all of them, or with `any` only until something is known. */
  method MergeEndpoints<K(==), V>(answers: seq<Tree<K, V>>, any: bool) returns (r: Option<Tree<K, V>>, asked: nat)
    requires forall i | 0 <= i < |answers| :: answers[i].Node?
    ensures asked <= |answers| && r == MergeAll(answers[..asked])
    ensures asked < |answers| && r.Some? ==> any && Tells(r)
    ensures forall n | 0 <= n < asked :: MergeAll(answers[..n]).Some? && !(any && Tells(MergeAll(answers[..n])))
  {
    var result := Node(map[]);
    asked := 0;
    while asked < |answers|
      invariant asked <= |answers| && result.Node? && MergeAll(answers[..asked]) == Some(result)
      invariant forall n | 0 <= n <= asked :: MergeAll(answers[..n]).Some? && !(any && Tells(MergeAll(answers[..n])))
    {
      assert answers[..asked + 1][..asked] == answers[..asked];
      r := MergeDicts(result, answers[asked].children);
      asked := asked + 1;
      if r.None? {
        return;
      }
      result := r.value;
      if any && result.children.Keys != {} {
        return;
      }
    }
    r := Some(result);
  }
}
