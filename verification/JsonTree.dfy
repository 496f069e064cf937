/** Two walks over a JSON tree that the client response goes through: dropping nulls, and removing a key
    wherever it occurs. */
module JsonTree {
  import opened Base

  // A tree the service holds in memory. Rows is a list of objects kept in its own list type, which the walks
  // below do not recognise and leave as it is; NilRows is the nil one, which prints as null.
  datatype Node =
    | Null
    | Bool(b: bool)
    | Num(n: real)
    | Str(s: string)
    | Arr(items: seq<Node>)
    | Obj(fields: map<string, Node>)
    | Rows(rows: seq<Node>)
    | NilRows

  type Tree = map<string, Node>

  // What decoding JSON text yields: no typed lists.
  predicate Plain(j: Node) {
    match j
    case Obj(fields) => forall k :: k in fields ==> Plain(fields[k])
    case Arr(items) => forall i :: 0 <= i < |items| ==> Plain(items[i])
    case Rows(_) => false
    case NilRows => false
    case _ => true
  }

  predicate PlainTree(t: Tree) { forall k :: k in t ==> Plain(t[k]) }

  type Decoded = t: Tree | PlainTree(t) witness map[]

  /******* Dropping nulls *******/

  // Null members and null elements go; false, zero, empty strings and empty containers stay.
  function Clean(j: Node): Node {
    match j
    case Obj(fields) => Obj(map k | k in fields && fields[k] != Null :: Clean(fields[k]))
    case Arr(items) => Arr(CleanSeq(items))
    case _ => j
  }

  function CleanSeq(items: seq<Node>): seq<Node> {
    if items == [] then []
    else if items[0] == Null then CleanSeq(items[1..])
    else [Clean(items[0])] + CleanSeq(items[1..])
  }

  // No null where the walk gets to.
  ghost predicate NoNullReached(j: Node) {
    match j
    case Obj(fields) => forall k :: k in fields ==> fields[k] != Null && NoNullReached(fields[k])
    case Arr(items) => forall i :: 0 <= i < |items| ==> items[i] != Null && NoNullReached(items[i])
    case _ => true
  }

  lemma {:induction false} CleanReachesNone(j: Node)
    ensures NoNullReached(Clean(j)) && (Clean(j) == Null <==> j == Null)
  {
    match j
    case Obj(fields) =>
      forall k | k in fields && fields[k] != Null ensures NoNullReached(Clean(fields[k])) && Clean(fields[k]) != Null {
        CleanReachesNone(fields[k]);
      }
    case Arr(items) => CleanSeqReachesNone(items);
    case _ =>
  }

  lemma {:induction false} CleanSeqReachesNone(items: seq<Node>)
    ensures NoNullReached(Arr(CleanSeq(items)))
  {
    if items != [] {
      CleanSeqReachesNone(items[1..]);
      if items[0] == Null {
        assert CleanSeq(items) == CleanSeq(items[1..]);
      } else {
        CleanReachesNone(items[0]);
        var out := CleanSeq(items);
        assert out[0] == Clean(items[0]) && out[1..] == CleanSeq(items[1..]);
        forall i | 0 <= i < |out| ensures out[i] != Null && NoNullReached(out[i]) {
          if i > 0 { assert out[i] == CleanSeq(items[1..])[i - 1]; }
        }
      }
    }
  }

  // The trees that cleaning leaves alone are the ones without a null that the walk reaches.
  lemma {:induction false} CleanFixesIff(j: Node)
    ensures Clean(j) == j <==> NoNullReached(j)
  {
    if NoNullReached(j) {
      CleanFixes(j);
    } else {
      CleanReachesNone(j);
    }
  }

  lemma {:induction false} CleanFixes(j: Node)
    requires NoNullReached(j)
    ensures Clean(j) == j
  {
    match j
    case Obj(fields) =>
      forall k | k in fields ensures Clean(fields[k]) == fields[k] {
        CleanFixes(fields[k]);
      }
      assert Clean(j).fields == fields;
    case Arr(items) => CleanSeqFixes(items);
    case _ =>
  }

  lemma {:induction false} CleanSeqFixes(items: seq<Node>)
    requires NoNullReached(Arr(items))
    ensures CleanSeq(items) == items
  {
    if items != [] {
      forall i | 0 <= i < |items[1..]| ensures items[1..][i] != Null && NoNullReached(items[1..][i]) {
        assert items[1..][i] == items[i + 1];
      }
      CleanSeqFixes(items[1..]);
      CleanFixes(items[0]);
      assert items == [items[0]] + items[1..];
    }
  }

  // Cleaning twice is cleaning once.
  lemma CleanIdempotent(j: Node)
    ensures Clean(Clean(j)) == Clean(j)
  {
    CleanReachesNone(j);
    CleanFixes(Clean(j));
  }

  /******* What prints as null *******/

  predicate PrintsNull(j: Node) { j == Null || j == NilRows }

  // No null in the printed text below the root.
  ghost predicate NoNullBelow(j: Node) {
    match j
    case Obj(fields) => forall k :: k in fields ==> !PrintsNull(fields[k]) && NoNullBelow(fields[k])
    case Arr(items) => forall i :: 0 <= i < |items| ==> !PrintsNull(items[i]) && NoNullBelow(items[i])
    case Rows(rows) => forall i :: 0 <= i < |rows| ==> !PrintsNull(rows[i]) && NoNullBelow(rows[i])
    case _ => true
  }

  // No typed list below the root is nil or prints a null.
  ghost predicate RowsWhole(j: Node) {
    match j
    case Obj(fields) => forall k :: k in fields ==> fields[k] != NilRows && RowsWhole(fields[k])
    case Arr(items) => forall i :: 0 <= i < |items| ==> items[i] != NilRows && RowsWhole(items[i])
    case Rows(_) => NoNullBelow(j)
    case _ => true
  }

  lemma {:induction false} PlainIsWhole(j: Node)
    requires Plain(j)
    ensures RowsWhole(j) && j != NilRows
  {
    match j
    case Obj(fields) =>
      forall k | k in fields ensures RowsWhole(fields[k]) && fields[k] != NilRows { PlainIsWhole(fields[k]); }
    case Arr(items) =>
      forall i | 0 <= i < |items| ensures RowsWhole(items[i]) && items[i] != NilRows { PlainIsWhole(items[i]); }
    case _ =>
  }

  // A cleaned tree prints without a null below its root exactly when its typed lists do, since those are the
  // only places the walk does not get to.
  lemma {:induction false} CleanNoNullIff(j: Node)
    ensures NoNullBelow(Clean(j)) <==> RowsWhole(j)
  {
    match j
    case Obj(fields) =>
      forall k | k in fields && fields[k] != Null
        ensures NoNullBelow(Clean(fields[k])) <==> RowsWhole(fields[k])
        ensures PrintsNull(Clean(fields[k])) <==> fields[k] == NilRows
      {
        CleanNoNullIff(fields[k]);
      }
      var out := Clean(j).fields;
      forall k | k in fields ensures k in out <==> fields[k] != Null {}
      if NoNullBelow(Clean(j)) {
        forall k | k in fields ensures fields[k] != NilRows && RowsWhole(fields[k]) {
          if fields[k] != Null { assert out[k] == Clean(fields[k]); }
        }
      }
    case Arr(items) => CleanSeqNoNullIff(items);
    case _ =>
  }

  lemma ConsPrints(x: Node, ys: seq<Node>)
    ensures NoNullBelow(Arr([x] + ys)) <==> !PrintsNull(x) && NoNullBelow(x) && NoNullBelow(Arr(ys))
    ensures RowsWhole(Arr([x] + ys)) <==> x != NilRows && RowsWhole(x) && RowsWhole(Arr(ys))
  {
    var xs := [x] + ys;
    assert xs[0] == x && xs[1..] == ys;
    assert forall i :: 0 <= i < |ys| ==> ys[i] == xs[i + 1];
    assert forall i :: 0 < i < |xs| ==> xs[i] == ys[i - 1];
  }

  lemma {:induction false} CleanSeqNoNullIff(items: seq<Node>)
    ensures NoNullBelow(Arr(CleanSeq(items))) <==> RowsWhole(Arr(items))
  {
    if items != [] {
      var first, rest, out := items[0], items[1..], CleanSeq(items);
      CleanSeqNoNullIff(rest);
      assert items == [first] + rest;
      ConsPrints(first, rest);
      if first == Null {
        assert out == CleanSeq(rest);
      } else {
        CleanNoNullIff(first);
        assert out == [Clean(first)] + CleanSeq(rest);
        ConsPrints(Clean(first), CleanSeq(rest));
      }
    }
  }

  /******* What is where *******/

  // A step into an object member, or to an element of an array counted among those that are not null.
  datatype Sel = Member(name: string) | Nth(i: nat)

  function Present(items: seq<Node>): seq<Node> {
    if items == [] then [] else (if items[0] == Null then [] else [items[0]]) + Present(items[1..])
  }

  // The value a path leads to; nothing is found at or below a null member, and a typed list is found whole.
  function At(j: Node, path: seq<Sel>): Option<Node>
    decreases |path|
  {
    if path == [] then Some(j)
    else match (j, path[0])
      case (Obj(fields), Member(k)) =>
        if k in fields && fields[k] != Null then At(fields[k], path[1..]) else None
      case (Arr(items), Nth(i)) =>
        if i < |Present(items)| then At(Present(items)[i], path[1..]) else None
      case _ => None
  }

  function CleanOption(o: Option<Node>): Option<Node> {
    match o case Some(v) => Some(Clean(v)) case None => None
  }

  lemma {:induction false} PresentCleaned(items: seq<Node>)
    ensures |Present(CleanSeq(items))| == |Present(items)|
    ensures forall i :: 0 <= i < |Present(items)| ==> Present(CleanSeq(items))[i] == Clean(Present(items)[i])
  {
    if items != [] {
      PresentCleaned(items[1..]);
      if items[0] == Null {
        assert CleanSeq(items) == CleanSeq(items[1..]) && Present(items) == Present(items[1..]);
      } else {
        CleanReachesNone(items[0]);
        assert CleanSeq(items)[0] == Clean(items[0]) && CleanSeq(items)[1..] == CleanSeq(items[1..]);
        assert Present(CleanSeq(items)) == [Clean(items[0])] + Present(CleanSeq(items[1..]));
      }
    }
  }

  // Main result: every path finds in the cleaned tree what it found before, cleaned, and nothing else: no
  // other leaf is lost, moved or made up.
  lemma {:induction false} CleanKeepsTheRest(j: Node, path: seq<Sel>)
    ensures At(Clean(j), path) == CleanOption(At(j, path))
    decreases |path|
  {
    if path != [] {
      match (j, path[0])
      case (Obj(fields), Member(k)) =>
        if k in fields && fields[k] != Null {
          CleanReachesNone(fields[k]);
          CleanKeepsTheRest(fields[k], path[1..]);
        }
      case (Arr(items), Nth(i)) =>
        PresentCleaned(items);
        if i < |Present(items)| {
          CleanKeepsTheRest(Present(items)[i], path[1..]);
        }
      case _ =>
    }
  }

  /******* Removing a key *******/

  function Remove(j: Node, key: string): Node {
    match j
    case Obj(fields) => Obj(map k | k in fields && k != key :: Remove(fields[k], key))
    case Arr(items) => Arr(RemoveSeq(items, key))
    case _ => j
  }

  function RemoveSeq(items: seq<Node>, key: string): seq<Node> {
    if items == [] then [] else [Remove(items[0], key)] + RemoveSeq(items[1..], key)
  }

  ghost predicate Lacks(j: Node, key: string) {
    match j
    case Obj(fields) => key !in fields && forall k :: k in fields ==> Lacks(fields[k], key)
    case Arr(items) => forall i :: 0 <= i < |items| ==> Lacks(items[i], key)
    case Rows(rows) => forall i :: 0 <= i < |rows| ==> Lacks(rows[i], key)
    case _ => true
  }

  // No occurrence survives at any depth.
  lemma {:induction false} RemoveLeavesNone(j: Node, key: string)
    requires Plain(j)
    ensures Lacks(Remove(j, key), key)
  {
    match j
    case Obj(fields) =>
      forall k | k in fields && k != key ensures Lacks(Remove(fields[k], key), key) {
        RemoveLeavesNone(fields[k], key);
      }
    case Arr(items) => RemoveSeqLeavesNone(items, key);
    case _ =>
  }

  lemma {:induction false} RemoveSeqLeavesNone(items: seq<Node>, key: string)
    requires Plain(Arr(items))
    ensures Lacks(Arr(RemoveSeq(items, key)), key)
  {
    if items != [] {
      RemoveSeqLeavesNone(items[1..], key);
      RemoveLeavesNone(items[0], key);
      var out := RemoveSeq(items, key);
      assert out[0] == Remove(items[0], key) && out[1..] == RemoveSeq(items[1..], key);
      forall i | 0 <= i < |out| ensures Lacks(out[i], key) {
        if i > 0 { assert out[i] == RemoveSeq(items[1..], key)[i - 1]; }
      }
    }
  }

  lemma {:induction false} RemovePlain(j: Node, key: string)
    requires Plain(j)
    ensures Plain(Remove(j, key))
  {
    match j
    case Obj(fields) =>
      forall k | k in fields && k != key ensures Plain(Remove(fields[k], key)) { RemovePlain(fields[k], key); }
    case Arr(items) => RemoveSeqPlain(items, key);
    case _ =>
  }

  lemma {:induction false} RemoveSeqPlain(items: seq<Node>, key: string)
    requires Plain(Arr(items))
    ensures Plain(Arr(RemoveSeq(items, key)))
  {
    if items != [] {
      assert forall i :: 0 <= i < |items[1..]| ==> items[1..][i] == items[i + 1];
      RemoveSeqPlain(items[1..], key);
      RemovePlain(items[0], key);
      var out := RemoveSeq(items, key);
      assert out[0] == Remove(items[0], key) && out[1..] == RemoveSeq(items[1..], key);
      forall i | 0 <= i < |out| ensures Plain(out[i]) {
        if i > 0 { assert out[i] == RemoveSeq(items[1..], key)[i - 1]; }
      }
    }
  }

  predicate Uses(path: seq<Sel>, key: string) {
    Member(key) in path
  }

  function RemoveOption(o: Option<Node>, key: string): Option<Node> {
    match o case Some(v) => Some(Remove(v, key)) case None => None
  }

  lemma {:induction false} PresentRemoved(items: seq<Node>, key: string)
    ensures |Present(RemoveSeq(items, key))| == |Present(items)|
    ensures forall i :: 0 <= i < |Present(items)| ==>
              Present(RemoveSeq(items, key))[i] == Remove(Present(items)[i], key)
  {
    if items != [] {
      PresentRemoved(items[1..], key);
      var out := RemoveSeq(items, key);
      assert out[0] == Remove(items[0], key) && out[1..] == RemoveSeq(items[1..], key);
      if items[0] == Null {
        assert Present(items) == Present(items[1..]) && Present(out) == Present(out[1..]);
      } else {
        assert Present(out) == [out[0]] + Present(out[1..]);
      }
    }
  }

  // Everything not under the key is where it was.
  lemma {:induction false} RemoveKeepsTheRest(j: Node, key: string, path: seq<Sel>)
    ensures At(Remove(j, key), path) == if Uses(path, key) then None else RemoveOption(At(j, path), key)
    decreases |path|
  {
    if path != [] {
      assert path == [path[0]] + path[1..];
      match (j, path[0])
      case (Obj(fields), Member(k)) =>
        if k in fields && k != key && fields[k] != Null {
          RemoveKeepsTheRest(fields[k], key, path[1..]);
        } else if k in fields && k != key {
          assert Remove(fields[k], key) == Null;
        }
      case (Arr(items), Nth(i)) =>
        PresentRemoved(items, key);
        if i < |Present(items)| {
          RemoveKeepsTheRest(Present(items)[i], key, path[1..]);
        }
      case _ =>
    }
  }

  // Cleaning does not bring a key back.
  lemma {:induction false} CleanKeepsLacking(j: Node, key: string)
    requires Lacks(j, key)
    ensures Lacks(Clean(j), key)
  {
    match j
    case Obj(fields) =>
      forall k | k in fields && fields[k] != Null ensures Lacks(Clean(fields[k]), key) {
        CleanKeepsLacking(fields[k], key);
      }
    case Arr(items) => CleanSeqKeepsLacking(items, key);
    case _ =>
  }

  lemma {:induction false} CleanSeqKeepsLacking(items: seq<Node>, key: string)
    requires Lacks(Arr(items), key)
    ensures Lacks(Arr(CleanSeq(items)), key)
  {
    if items != [] {
      forall i | 0 <= i < |items[1..]| ensures Lacks(items[1..][i], key) { assert items[1..][i] == items[i + 1]; }
      CleanSeqKeepsLacking(items[1..], key);
      if items[0] == Null {
        assert CleanSeq(items) == CleanSeq(items[1..]);
      } else {
        CleanKeepsLacking(items[0], key);
        var out := CleanSeq(items);
        assert out[0] == Clean(items[0]) && out[1..] == CleanSeq(items[1..]);
        forall i | 0 <= i < |out| ensures Lacks(out[i], key) {
          if i > 0 { assert out[i] == CleanSeq(items[1..])[i - 1]; }
        }
      }
    }
  }
}
