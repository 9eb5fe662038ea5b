/**
 The translation of an evaluation context into a LaunchDarkly context. The source is an object graph that
 may share objects and have cycles; the result is a tree.
 */
module ContextGraph {

  datatype Option<+T> = None | Some(value: T)

  /** A JavaScript value; arrays and plain objects are references. */
  datatype Value =
    | Undefined
    | Null
    | Bool(b: bool)
    | Number(n: real)
    | Text(s: string)
    | Date(iso: string)
    | Array(id: nat)
    | Object(id: nat)

  /** The entries of a plain object, in the order `Object.entries` gives them. */
  datatype Entries = Entries(keys: seq<string>, fields: map<string, Value>)

  type Heap = map<nat, Entries>

  datatype Tree = Leaf(value: Value) | Node(fields: map<string, Tree>)

  ghost predicate ValidValue(h: Heap, v: Value) {
    v.Object? ==> v.id in h
  }

  predicate Distinct<T(==)>(s: seq<T>) {
    forall i, j :: 0 <= i < j < |s| ==> s[i] != s[j]
  }

  /** No dangling references, and the keys of each object are listed once. */
  ghost predicate ValidHeap(h: Heap) {
    forall o <- h ::
      && Distinct(h[o].keys) && (forall k :: k in h[o].keys <==> k in h[o].fields)
      && (forall k <- h[o].fields :: ValidValue(h, h[o].fields[k]))
  }

  // ----- converting a value -----

  ghost function Unvisited(h: Heap, visited: seq<nat>): set<nat> {
    set o | o in h && o !in visited
  }

  lemma VisitingDecreases(h: Heap, visited: seq<nat>, o: nat)
    requires o in h && o !in visited
    ensures |Unvisited(h, visited + [o])| < |Unvisited(h, visited)|
  {
    assert Unvisited(h, visited + [o]) == Unvisited(h, visited) - {o};
    assert o in Unvisited(h, visited);
  }

  /** What becomes of a value below the objects in `visited`; nothing if it is one of them. */
  ghost function Convert(h: Heap, v: Value, visited: seq<nat>): Option<Tree>
    requires ValidHeap(h) && ValidValue(h, v)
    decreases |Unvisited(h, visited)|
  {
    match v
    case Object(o) =>
      if o in visited then None
      else
        VisitingDecreases(h, visited, o);
        var fields := h[o].fields;
        Some(Node(map k | k in fields && Convert(h, fields[k], visited + [o]).Some?
                    :: Convert(h, fields[k], visited + [o]).value))
    case _ => Some(Leaf(Plain(v)))
  }

  function Plain(v: Value): Value {
    if v.Date? then Text(v.iso) else v
  }

  /** Puts the conversion of `value` at `key` of `target`, unless that closes a cycle. */
  method ConvertAttributes(h: Heap, key: string, value: Value, target: map<string, Tree>, visited: seq<nat>)
    returns (result: map<string, Tree>)
    requires ValidHeap(h) && ValidValue(h, value)
    ensures result == match Convert(h, value, visited) case None => target case Some(t) => target[key := t]
    decreases |Unvisited(h, visited)|, 0
  {
    if value.Object? && value.id in visited {
      return target;
    }
    if value.Date? {
      result := target[key := Leaf(Text(value.iso))];
    } else if value.Object? {
      VisitingDecreases(h, visited, value.id);
      var child := ConvertEntries(h, value.id, visited + [value.id]);
      assert child == Convert(h, value, visited).value.fields;
      result := target[key := Node(child)];
    } else {
      result := target[key := Leaf(value)];
    }
  }

  /** Fills an empty object with the conversions of the entries of `o`. */
  method ConvertEntries(h: Heap, o: nat, visited: seq<nat>) returns (child: map<string, Tree>)
    requires ValidHeap(h) && o in h
    ensures child == map k | k in h[o].fields && Convert(h, h[o].fields[k], visited).Some?
                       :: Convert(h, h[o].fields[k], visited).value
    decreases |Unvisited(h, visited)|, 1
  {
    var keys, fields := h[o].keys, h[o].fields;
    child := map[];
    for i := 0 to |keys|
      invariant child == map k | k in keys[..i] && Convert(h, fields[k], visited).Some?
                           :: Convert(h, fields[k], visited).value
    {
      child := ConvertAttributes(h, keys[i], fields[keys[i]], child, visited);
      assert keys[..i + 1] == keys[..i] + [keys[i]];
    }
    assert keys[..|keys|] == keys;
  }

  // ----- paths -----

  /** The value at the end of a path in the source. */
  ghost function At(h: Heap, v: Value, path: seq<string>): Option<Value>
    requires ValidHeap(h) && ValidValue(h, v)
    decreases |path|
  {
    if path == [] then Some(v)
    else if v.Object? && path[0] in h[v.id].fields then At(h, h[v.id].fields[path[0]], path[1..])
    else None
  }

  /** The objects along a path, its end included. */
  ghost function Trail(h: Heap, v: Value, path: seq<string>): seq<nat>
    requires ValidHeap(h) && ValidValue(h, v)
    decreases |path|
  {
    if !v.Object? then []
    else if path != [] && path[0] in h[v.id].fields then [v.id] + Trail(h, h[v.id].fields[path[0]], path[1..])
    else [v.id]
  }

  /** What is at the end of a path in the result. */
  function OutputAt(t: Tree, path: seq<string>): Option<Tree>
    decreases |path|
  {
    if path == [] then Some(t)
    else if t.Node? && path[0] in t.fields then OutputAt(t.fields[path[0]], path[1..])
    else None
  }

  lemma RepeatedObject(visited: seq<nat>, o: nat, rest: seq<nat>)
    requires o in visited
    ensures !Distinct(visited + ([o] + rest))
  {
    var i :| 0 <= i < |visited| && visited[i] == o;
    var all := visited + ([o] + rest);
    assert all[i] == o && all[|visited|] == o;
  }

  lemma DistinctFront(visited: seq<nat>, o: nat)
    requires Distinct(visited) && o !in visited
    ensures Distinct(visited + [o])
  {
  }

  /** The output mirrors what the path leads to: an object becomes a node, and anything else itself. */
  ghost predicate Mirrors(t: Tree, v: Value) {
    if v.Object? then t.Node? else t == Leaf(if v.Date? then Text(v.iso) else v)
  }

  /** What is kept of `v` along the path is what it has there, kept exactly with new and distinct objects on the way. */
  ghost predicate KeptExactly(h: Heap, v: Value, visited: seq<nat>, path: seq<string>)
    requires ValidHeap(h) && ValidValue(h, v)
  {
    var t := Convert(h, v, visited);
    && ((t.Some? && OutputAt(t.value, path).Some?) <==>
          At(h, v, path).Some? && Distinct(visited + Trail(h, v, path)))
    && (t.Some? && OutputAt(t.value, path).Some? ==> Mirrors(OutputAt(t.value, path).value, At(h, v, path).value))
  }

  lemma TrailBelow(h: Heap, o: nat, visited: seq<nat>, path: seq<string>)
    requires ValidHeap(h) && o in h && path != [] && path[0] in h[o].fields
    ensures var next := h[o].fields[path[0]];
            && visited + Trail(h, Object(o), path) == visited + [o] + Trail(h, next, path[1..])
            && At(h, Object(o), path) == At(h, next, path[1..])
  {
  }

  lemma KeptBelow(h: Heap, o: nat, visited: seq<nat>, path: seq<string>)
    requires ValidHeap(h) && o in h && o !in visited && path != [] && path[0] in h[o].fields
    requires KeptExactly(h, h[o].fields[path[0]], visited + [o], path[1..])
    ensures KeptExactly(h, Object(o), visited, path)
  {
    TrailBelow(h, o, visited, path);
    OutputBelow(h, o, visited, path);
  }

  lemma CycleIsCut(h: Heap, o: nat, visited: seq<nat>, path: seq<string>)
    requires ValidHeap(h) && o in h && o in visited
    ensures KeptExactly(h, Object(o), visited, path)
  {
    var rest := Trail(h, Object(o), path)[1..];
    assert Trail(h, Object(o), path) == [o] + rest;
    RepeatedObject(visited, o, rest);
  }

  lemma {:induction false} EveryPathIsKeptExactly(h: Heap, v: Value, visited: seq<nat>, path: seq<string>)
    requires ValidHeap(h) && ValidValue(h, v) && Distinct(visited)
    ensures KeptExactly(h, v, visited, path)
    decreases |path|
  {
    if v.Object? && v.id in visited {
      CycleIsCut(h, v.id, visited, path);
    } else if v.Object? && path != [] && path[0] in h[v.id].fields {
      DistinctFront(visited, v.id);
      EveryPathIsKeptExactly(h, h[v.id].fields[path[0]], visited + [v.id], path[1..]);
      KeptBelow(h, v.id, visited, path);
    } else {
      ShortTrail(h, v, visited, path);
    }
  }

  /** A path is kept, with the same leaf, if and only if the objects along it are new and pairwise distinct. */
  lemma PathIsKeptExactly(h: Heap, v: Value, visited: seq<nat>, path: seq<string>)
    requires ValidHeap(h) && ValidValue(h, v) && Distinct(visited)
    ensures var t := Convert(h, v, visited);
            (t.Some? && OutputAt(t.value, path).Some?) <==>
              At(h, v, path).Some? && Distinct(visited + Trail(h, v, path))
    ensures var t := Convert(h, v, visited);
            t.Some? && OutputAt(t.value, path).Some? ==>
              At(h, v, path).Some? && Mirrors(OutputAt(t.value, path).value, At(h, v, path).value)
  {
    EveryPathIsKeptExactly(h, v, visited, path);
  }

  lemma OutputBelow(h: Heap, o: nat, visited: seq<nat>, path: seq<string>)
    requires ValidHeap(h) && o in h && o !in visited && path != [] && path[0] in h[o].fields
    ensures Convert(h, Object(o), visited).Some?
    ensures OutputAt(Convert(h, Object(o), visited).value, path)
         == match Convert(h, h[o].fields[path[0]], visited + [o])
            case None => None
            case Some(t) => OutputAt(t, path[1..])
  {
  }

  /** Nothing in the source beyond the first value of the path. */
  lemma ShortTrail(h: Heap, v: Value, visited: seq<nat>, path: seq<string>)
    requires ValidHeap(h) && ValidValue(h, v) && Distinct(visited)
    requires !v.Object? || (v.id !in visited && (path == [] || path[0] !in h[v.id].fields))
    ensures Distinct(visited + Trail(h, v, path)) && Convert(h, v, visited).Some?
    ensures OutputAt(Convert(h, v, visited).value, path).Some? <==> path == []
    ensures path == [] ==> Mirrors(Convert(h, v, visited).value, v)
  {
    if v.Object? {
      DistinctFront(visited, v.id);
    } else {
      assert visited + [] == visited;
    }
  }

  // ----- the common part of a context -----

  const META := "_meta"
  const PRIVATE := "privateAttributes"

  const BUILT_INS: map<string, string> := map["name" := "string", "anonymous" := "boolean"]

  /** What every object literal inherits, so that `in` finds it in the table of built-in attributes too. */
  const INHERITED: set<string> := {
    "constructor", "hasOwnProperty", "isPrototypeOf", "propertyIsEnumerable", "toLocaleString", "toString",
    "valueOf", "__defineGetter__", "__defineSetter__", "__lookupGetter__", "__lookupSetter__", "__proto__" }

  function TypeOf(v: Value): string {
    match v
    case Undefined => "undefined"
    case Bool(_) => "boolean"
    case Number(_) => "number"
    case Text(_) => "string"
    case _ => "object"
  }

  /** `a ?? b`. */
  function Coalesce(a: Value, b: Value): Value {
    if a.Undefined? || a.Null? then b else a
  }

  function Get(fields: map<string, Value>, key: string): Value {
    if key in fields then fields[key] else Undefined
  }

  function Meta(v: Value): Tree {
    Node(map["privateAttributes" := Leaf(v)])
  }

  /** One entry of the context, added to what has been converted. */
  ghost function Placed(h: Heap, root: nat, key: string, converted: map<string, Tree>): map<string, Tree>
    requires ValidHeap(h) && root in h && key in h[root].fields
  {
    var value := h[root].fields[key];
    if key == "targetingKey" || key == "key" then converted
    else if key == PRIVATE then converted[META := Meta(value)]
    else if key in BUILT_INS then
      if TypeOf(value) == BUILT_INS[key] then converted[key := Leaf(value)] else converted
    else if key in INHERITED then converted
    else match Convert(h, value, [root]) case None => converted case Some(t) => converted[key := t]
  }

  ghost function Common(h: Heap, root: nat, targetingKey: Value, n: nat): map<string, Tree>
    requires ValidHeap(h) && root in h && n <= |h[root].keys|
  {
    if n == 0 then map["key" := Leaf(Coalesce(targetingKey, Get(h[root].fields, "key")))]
    else Placed(h, root, h[root].keys[n - 1], Common(h, root, targetingKey, n - 1))
  }

  method TranslateContextCommon(h: Heap, root: nat, targetingKey: Value) returns (converted: map<string, Tree>)
    requires ValidHeap(h) && root in h
    ensures converted == Common(h, root, targetingKey, |h[root].keys|)
  {
    var keys, fields := h[root].keys, h[root].fields;
    converted := map["key" := Leaf(Coalesce(targetingKey, Get(fields, "key")))];
    for i := 0 to |keys|
      invariant converted == Common(h, root, targetingKey, i)
    {
      var key, value := keys[i], fields[keys[i]];
      if key == "targetingKey" || key == "key" {
        continue;
      }
      if key == PRIVATE {
        converted := converted[META := Meta(value)];
      } else if key in BUILT_INS || key in INHERITED {
        if key in BUILT_INS && TypeOf(value) == BUILT_INS[key] {
          converted := converted[key := Leaf(value)];
        }
      } else {
        converted := ConvertAttributes(h, key, value, converted, [root]);
      }
    }
  }

  // ----- what the common part holds, whatever the order of its entries -----

  /** Attributes with no meaning of their own. */
  predicate Ordinary(key: string) {
    key !in ["targetingKey", "key", "privateAttributes"] && key !in BUILT_INS && key !in INHERITED
  }

  /** `a` stands before `b`. */
  predicate Precedes(keys: seq<string>, a: string, b: string) {
    exists i, j :: 0 <= i < j < |keys| && keys[i] == a && keys[j] == b
  }

  /** What the result holds at `_meta`: the later of the two sources that give anything. */
  ghost function ExpectedMeta(h: Heap, root: nat, seen: seq<string>): Option<Tree>
    requires ValidHeap(h) && root in h && forall k :: k in seen ==> k in h[root].fields
  {
    var fields := h[root].fields;
    var own := if META in seen then Convert(h, fields[META], [root]) else None;
    if PRIVATE in seen && (own.None? || Precedes(seen, META, PRIVATE)) then Some(Meta(fields[PRIVATE])) else own
  }

  /** What the result holds at a key, considering only the entries in `seen`. */
  ghost function Expected(h: Heap, root: nat, targetingKey: Value, seen: seq<string>, key: string): Option<Tree>
    requires ValidHeap(h) && root in h && forall k :: k in seen ==> k in h[root].fields
  {
    var fields := h[root].fields;
    if key == META then ExpectedMeta(h, root, seen)
    else if key == "key" then Some(Leaf(Coalesce(targetingKey, Get(fields, "key"))))
    else if key !in seen then None
    else if Ordinary(key) then Convert(h, fields[key], [root])
    else if key in BUILT_INS && TypeOf(fields[key]) == BUILT_INS[key] then Some(Leaf(fields[key]))
    else None
  }

  function Lookup(m: map<string, Tree>, key: string): Option<Tree> {
    if key in m then Some(m[key]) else None
  }

  lemma PrecedesAppend(seen: seq<string>, next: string, a: string, b: string)
    requires next !in seen
    ensures Precedes(seen + [next], a, b) <==> Precedes(seen, a, b) || (a in seen && b == next)
  {
    var all := seen + [next];
    if Precedes(seen, a, b) {
      var i, j :| 0 <= i < j < |seen| && seen[i] == a && seen[j] == b;
      assert all[i] == a && all[j] == b;
    }
    if a in seen && b == next {
      var i :| 0 <= i < |seen| && seen[i] == a;
      assert all[i] == a && all[|seen|] == b;
    }
  }

  lemma MetaIsOrdinary()
    ensures Ordinary(META) && META != PRIVATE
  {
    assert META[1] == 'm';
    assert forall k <- INHERITED :: k[1] != 'm';
    assert |META| == 5;
  }

  /** One more entry, as seen at `_meta`. */
  lemma PlacedIsExpectedMeta(h: Heap, root: nat, seen: seq<string>, next: string, converted: map<string, Tree>)
    requires ValidHeap(h) && root in h && (forall k :: k in seen ==> k in h[root].fields)
    requires next in h[root].fields && next !in seen
    requires Lookup(converted, META) == ExpectedMeta(h, root, seen)
    ensures Lookup(Placed(h, root, next, converted), META) == ExpectedMeta(h, root, seen + [next])
  {
    MetaIsOrdinary();
    PrecedesAppend(seen, next, META, PRIVATE);
    assert forall k :: k in seen + [next] <==> k in seen || k == next;
  }

  /** One more entry, as seen at any other key. */
  lemma PlacedIsExpected(
      h: Heap, root: nat, targetingKey: Value, seen: seq<string>, next: string, converted: map<string, Tree>,
      key: string)
    requires ValidHeap(h) && root in h && (forall k :: k in seen ==> k in h[root].fields)
    requires next in h[root].fields && next !in seen && key != META
    requires Lookup(converted, key) == Expected(h, root, targetingKey, seen, key)
    ensures Lookup(Placed(h, root, next, converted), key) == Expected(h, root, targetingKey, seen + [next], key)
  {
    assert key in seen + [next] <==> key in seen || key == next;
  }

  lemma SeenFront(h: Heap, root: nat, n: nat)
    requires ValidHeap(h) && root in h && 0 < n <= |h[root].keys|
    ensures h[root].keys[..n] == h[root].keys[..n - 1] + [h[root].keys[n - 1]]
    ensures h[root].keys[n - 1] in h[root].fields && h[root].keys[n - 1] !in h[root].keys[..n - 1]
    ensures forall k :: k in h[root].keys[..n - 1] ==> k in h[root].fields
  {
  }

  /** The result is as expected at every key. */
  lemma {:induction false} CommonIsExpected(h: Heap, root: nat, targetingKey: Value, n: nat, key: string)
    requires ValidHeap(h) && root in h && n <= |h[root].keys|
    ensures Lookup(Common(h, root, targetingKey, n), key) == Expected(h, root, targetingKey, h[root].keys[..n], key)
  {
    if n == 0 {
      MetaIsOrdinary();
    } else {
      CommonIsExpected(h, root, targetingKey, n - 1, key);
      SeenFront(h, root, n);
      var seen, last := h[root].keys[..n - 1], h[root].keys[n - 1];
      if key == META {
        PlacedIsExpectedMeta(h, root, seen, last, Common(h, root, targetingKey, n - 1));
      } else {
        PlacedIsExpected(h, root, targetingKey, seen, last, Common(h, root, targetingKey, n - 1), key);
      }
    }
  }

  /** The same for the whole context. */
  lemma WholeIsExpected(h: Heap, root: nat, targetingKey: Value, key: string)
    requires ValidHeap(h) && root in h
    ensures Lookup(Common(h, root, targetingKey, |h[root].keys|), key)
         == Expected(h, root, targetingKey, h[root].keys, key)
  {
    CommonIsExpected(h, root, targetingKey, |h[root].keys|, key);
    assert h[root].keys[..|h[root].keys|] == h[root].keys;
  }

  /**
   A path that starts with an ordinary attribute is kept, with the same leaf, if and only if the objects
   along it, the context first, are pairwise distinct.
   */
  lemma AttributeIsKeptExactly(h: Heap, root: nat, targetingKey: Value, path: seq<string>)
    requires ValidHeap(h) && root in h
    requires path != [] && Ordinary(path[0]) && (path[0] == META ==> PRIVATE !in h[root].fields)
    ensures var out := OutputAt(Node(Common(h, root, targetingKey, |h[root].keys|)), path);
            var end := At(h, Object(root), path);
            && (out.Some? <==> end.Some? && Distinct(Trail(h, Object(root), path)))
            && (out.Some? ==> Mirrors(out.value, end.value))
  {
    var keys, key := h[root].keys, path[0];
    var common := Common(h, root, targetingKey, |keys|);
    WholeIsExpected(h, root, targetingKey, key);
    assert key in keys <==> key in h[root].fields;
    if key in h[root].fields {
      var v := h[root].fields[key];
      assert Lookup(common, key) == Convert(h, v, [root]);
      PathIsKeptExactly(h, v, [root], path[1..]);
      assert Trail(h, Object(root), path) == [root] + Trail(h, v, path[1..]);
    }
  }

  /** The other keys: the context key, the two typed attributes, and those dropped because literals inherit them. */
  lemma SpecialKeys(h: Heap, root: nat, targetingKey: Value, key: string)
    requires ValidHeap(h) && root in h && !Ordinary(key)
    ensures var common, fields := Common(h, root, targetingKey, |h[root].keys|), h[root].fields;
            Lookup(common, key) ==
              if key == "key" then
                Some(Leaf(if targetingKey != Undefined && targetingKey != Null then targetingKey
                          else if "key" in fields then fields["key"] else Undefined))
              else if key == "name" && key in fields && fields[key].Text? then Some(Leaf(fields[key]))
              else if key == "anonymous" && key in fields && fields[key].Bool? then Some(Leaf(fields[key]))
              else None
  {
    WholeIsExpected(h, root, targetingKey, key);
    MetaIsOrdinary();
  }

  /** Which keys these are. */
  lemma OrdinaryMeans(key: string)
    ensures !Ordinary(key) <==>
              key in [
                "targetingKey", "key", "privateAttributes", "name", "anonymous",
                "constructor", "hasOwnProperty", "isPrototypeOf", "propertyIsEnumerable", "toLocaleString", "toString",
                "valueOf", "__defineGetter__", "__defineSetter__", "__lookupGetter__", "__lookupSetter__", "__proto__"]
  {
  }

  /** With private attributes and no `_meta` of its own, the context has a `_meta` that holds them. */
  lemma PrivateAttributesBecomeMeta(h: Heap, root: nat, targetingKey: Value)
    requires ValidHeap(h) && root in h
    requires "privateAttributes" in h[root].fields && "_meta" !in h[root].fields
    ensures Lookup(Common(h, root, targetingKey, |h[root].keys|), "_meta")
         == Some(Node(map["privateAttributes" := Leaf(h[root].fields["privateAttributes"])]))
  {
    WholeIsExpected(h, root, targetingKey, META);
  }

  // ----- the order of the entries -----

  /** The same objects, whose entries may be listed in another order. */
  ghost predicate SameFields(h: Heap, g: Heap) {
    h.Keys == g.Keys && forall o <- h :: h[o].fields == g[o].fields
  }

  lemma {:induction false} ConvertIgnoresOrder(h: Heap, g: Heap, v: Value, visited: seq<nat>)
    requires ValidHeap(h) && ValidHeap(g) && SameFields(h, g) && ValidValue(h, v)
    ensures Convert(h, v, visited) == Convert(g, v, visited)
    decreases |Unvisited(h, visited)|
  {
    if v.Object? && v.id !in visited {
      VisitingDecreases(h, visited, v.id);
      forall k | k in h[v.id].fields
        ensures Convert(h, h[v.id].fields[k], visited + [v.id]) == Convert(g, h[v.id].fields[k], visited + [v.id])
      {
        ConvertIgnoresOrder(h, g, h[v.id].fields[k], visited + [v.id]);
      }
      assert Convert(h, v, visited).value.fields == Convert(g, v, visited).value.fields;
    }
  }

  /** Except at `_meta`, the order of the entries never shows. */
  lemma OrderShowsOnlyAtMeta(h: Heap, g: Heap, root: nat, targetingKey: Value, key: string)
    requires ValidHeap(h) && ValidHeap(g) && SameFields(h, g) && root in h && key != META
    ensures Lookup(Common(h, root, targetingKey, |h[root].keys|), key)
         == Lookup(Common(g, root, targetingKey, |g[root].keys|), key)
  {
    WholeIsExpected(h, root, targetingKey, key);
    WholeIsExpected(g, root, targetingKey, key);
    assert key in h[root].keys <==> key in g[root].keys;
    if key in h[root].fields {
      ConvertIgnoresOrder(h, g, h[root].fields[key], [root]);
    }
  }

  ghost predicate BothMetas(h: Heap, root: nat)
    requires root in h
  {
    META in h[root].fields && PRIVATE in h[root].fields
  }

  /**
   With both, `_meta` holds the private attributes if they come later or `_meta` closes a cycle, and its own
   conversion otherwise.
   */
  lemma LaterMetaWins(h: Heap, root: nat, targetingKey: Value)
    requires ValidHeap(h) && root in h && BothMetas(h, root)
    ensures var fields, keys := h[root].fields, h[root].keys;
            var own := Convert(h, fields["_meta"], [root]);
            var private := Some(Node(map["privateAttributes" := Leaf(fields["privateAttributes"])]));
            Lookup(Common(h, root, targetingKey, |keys|), "_meta")
              == if own.None? || Precedes(keys, "_meta", "privateAttributes") then private else own
  {
    WholeIsExpected(h, root, targetingKey, META);
  }

  /** The two sources of `_meta` come to the same. */
  ghost predicate MetasCoincide(h: Heap, root: nat)
    requires ValidHeap(h) && root in h && BothMetas(h, root)
  {
    var own := Convert(h, h[root].fields[META], [root]);
    own.None? || own == Some(Meta(h[root].fields[PRIVATE]))
  }

  ghost predicate MetaInAnyOrder(h: Heap, root: nat, targetingKey: Value)
    requires ValidHeap(h) && root in h
  {
    forall g: Heap :: ValidHeap(g) && SameFields(h, g) ==>
      Lookup(Common(g, root, targetingKey, |g[root].keys|), META)
        == Lookup(Common(h, root, targetingKey, |h[root].keys|), META)
  }

  /** The context with two of its entries exchanged. */
  function Exchanged(h: Heap, root: nat, i: nat, j: nat): Heap
    requires root in h && i < |h[root].keys| && j < |h[root].keys|
  {
    var keys := h[root].keys;
    h[root := Entries(keys[i := keys[j]][j := keys[i]], h[root].fields)]
  }

  lemma ExchangedIsValid(h: Heap, root: nat, i: nat, j: nat)
    requires ValidHeap(h) && root in h && i < |h[root].keys| && j < |h[root].keys| && i != j
    ensures ValidHeap(Exchanged(h, root, i, j)) && SameFields(h, Exchanged(h, root, i, j))
  {
    var keys, g := h[root].keys, Exchanged(h, root, i, j);
    forall k ensures k in g[root].keys <==> k in keys {
      if k in keys {
        var n :| 0 <= n < |keys| && keys[n] == k;
        assert g[root].keys[if n == i then j else if n == j then i else n] == k;
      }
    }
  }

  lemma ExchangedOrder(h: Heap, root: nat, i: nat, j: nat)
    requires ValidHeap(h) && root in h && i < |h[root].keys| && j < |h[root].keys| && i != j
    ensures var keys := h[root].keys;
            Precedes(Exchanged(h, root, i, j)[root].keys, keys[i], keys[j]) <==> !Precedes(keys, keys[i], keys[j])
  {
    var keys, swapped := h[root].keys, Exchanged(h, root, i, j)[root].keys;
    ExchangedIsValid(h, root, i, j);
    assert swapped[j] == keys[i] && swapped[i] == keys[j];
  }

  /** The order shows at `_meta` exactly when both are given and do not come to the same. */
  lemma MetaDependsOnOrderExactly(h: Heap, root: nat, targetingKey: Value)
    requires ValidHeap(h) && root in h
    ensures MetaInAnyOrder(h, root, targetingKey) <==> (BothMetas(h, root) ==> MetasCoincide(h, root))
  {
    if BothMetas(h, root) && !MetasCoincide(h, root) {
      MetaDependsOnOrder(h, root, targetingKey);
    } else {
      forall g: Heap | ValidHeap(g) && SameFields(h, g)
        ensures Lookup(Common(g, root, targetingKey, |g[root].keys|), META)
             == Lookup(Common(h, root, targetingKey, |h[root].keys|), META)
      {
        MetaIgnoresOrder(h, g, root, targetingKey);
      }
    }
  }

  lemma MetaIgnoresOrder(h: Heap, g: Heap, root: nat, targetingKey: Value)
    requires ValidHeap(h) && ValidHeap(g) && SameFields(h, g) && root in h
    requires BothMetas(h, root) ==> MetasCoincide(h, root)
    ensures Lookup(Common(g, root, targetingKey, |g[root].keys|), META)
         == Lookup(Common(h, root, targetingKey, |h[root].keys|), META)
  {
    WholeIsExpected(h, root, targetingKey, META);
    WholeIsExpected(g, root, targetingKey, META);
    assert forall k :: k in h[root].keys <==> k in g[root].keys;
    if META in h[root].fields {
      ConvertIgnoresOrder(h, g, h[root].fields[META], [root]);
    }
  }

  /** Exchanging the two entries changes the result when both are given and differ. */
  lemma MetaDependsOnOrder(h: Heap, root: nat, targetingKey: Value)
    requires ValidHeap(h) && root in h && BothMetas(h, root) && !MetasCoincide(h, root)
    ensures !MetaInAnyOrder(h, root, targetingKey)
  {
    var keys := h[root].keys;
    var i :| 0 <= i < |keys| && keys[i] == META;
    var j :| 0 <= j < |keys| && keys[j] == PRIVATE;
    MetaIsOrdinary();
    var g := Exchanged(h, root, i, j);
    ExchangedIsValid(h, root, i, j);
    ExchangedOrder(h, root, i, j);
    ConvertIgnoresOrder(h, g, h[root].fields[META], [root]);
    LaterMetaWins(h, root, targetingKey);
    LaterMetaWins(g, root, targetingKey);
    assert Lookup(Common(g, root, targetingKey, |g[root].keys|), META)
        != Lookup(Common(h, root, targetingKey, |h[root].keys|), META);
  }

  // ----- a single context -----

  /** The result of a context that is not a multi-context. */
  ghost function Single(h: Heap, root: nat): map<string, Tree>
    requires ValidHeap(h) && root in h
  {
    var kind := Get(h[root].fields, "kind");
    map["kind" := Leaf(if kind.Text? then kind else Text("user"))]
      + Common(h, root, Get(h[root].fields, "targetingKey"), |h[root].keys|)
  }

  /** A context has the default kind exactly when it gives none, gives that one, or gives itself as its kind. */
  lemma DefaultKindExactly(h: Heap, root: nat)
    requires ValidHeap(h) && root in h
    ensures "kind" in Single(h, root)
    ensures var fields := h[root].fields;
            Single(h, root)["kind"] == Leaf(Text("user")) <==>
              || "kind" !in fields || fields["kind"] in {Text("user"), Object(root)}
              || (fields["kind"].Date? && fields["kind"].iso == "user")
  {
    WholeIsExpected(h, root, Get(h[root].fields, "targetingKey"), "kind");
  }
}
