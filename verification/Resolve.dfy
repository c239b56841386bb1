/** Resolution of object classes for code generation (gen/resolve.go): a depth-first
    walk over superclasses with cycle detection, and the attributes that are collected
    from every class it finishes. */
module Resolve {
  import opened BerTypes
  import opened Attributes

  datatype ObjectClass = ObjectClass(name: bytes, sup: seq<bytes>, must: seq<bytes>, may: seq<bytes>)

  // The schema: object classes by lower-case key, and the keys of its attributes.
  datatype Schema = Schema(classes: map<bytes, ObjectClass>, attributes: set<bytes>)

  // ---------------------------------------------------------------- reachability

  ghost predicate Edge(s: Schema, k: bytes, j: bytes)
  {
    k in s.classes && exists i :: 0 <= i < |s.classes[k].sup| && Lower(s.classes[k].sup[i]) == j
  }

  // Each class on the path is a superclass of the one before it.
  ghost predicate IsPath(s: Schema, p: seq<bytes>)
  {
    p != [] && forall i :: 0 < i < |p| ==> Edge(s, p[i - 1], p[i])
  }

  ghost predicate FromRoot(s: Schema, roots: seq<bytes>, p: seq<bytes>)
  {
    IsPath(s, p) && exists i :: 0 <= i < |roots| && Lower(roots[i]) == p[0]
  }

  ghost predicate Reachable(s: Schema, roots: seq<bytes>, k: bytes)
  {
    exists p :: FromRoot(s, roots, p) && p[|p| - 1] == k
  }

  ghost predicate OnCycle(s: Schema, k: bytes)
  {
    exists p :: IsPath(s, p) && |p| > 1 && p[0] == k && p[|p| - 1] == k
  }

  // ------------------------------------------------------------------- members

  // The names a class declares, required ones first.
  function Declared(c: ObjectClass): seq<bytes> { c.must + c.may }

  ghost predicate GoodNames(s: Schema, names: seq<bytes>)
  {
    && (forall i :: 0 <= i < |names| ==> Lower(names[i]) in s.attributes)
    && (forall i, j :: 0 <= i < j < |names| ==> Lower(names[i]) != Lower(names[j]))
  }

  ghost predicate GoodClass(s: Schema, k: bytes) { k in s.classes && GoodNames(s, Declared(s.classes[k])) }

  /** What members promises to accept: every reachable class is known, declares known
      attributes once each, and no inheritance cycle is reachable. */
  ghost predicate Resolvable(s: Schema, roots: seq<bytes>)
  {
    forall k :: Reachable(s, roots, k) ==> GoodClass(s, k) && !OnCycle(s, k)
  }

  function Keys(names: seq<bytes>): set<bytes> { set i | 0 <= i < |names| :: Lower(names[i]) }

  // -------------------------------------------------------------------- the walk

  // The classes finished so far, each once, known, well declared and after all of
  // its superclasses.
  ghost predicate Finished(s: Schema, order: seq<bytes>)
  {
    && (forall i, j :: 0 <= i < j < |order| ==> order[i] != order[j])
    && (forall i :: 0 <= i < |order| ==> GoodClass(s, order[i]))
    && (forall i, j :: 0 <= i < |order| && Edge(s, order[i], j) ==> j in order[..i])
  }

  ghost predicate AllReachable(s: Schema, roots: seq<bytes>, order: seq<bytes>)
  {
    forall i :: 0 <= i < |order| ==> Reachable(s, roots, order[i])
  }

  // The members are those of the finished classes, required if one of them requires it.
  ghost predicate Collected(s: Schema, order: seq<bytes>, attrs: map<bytes, bool>)
  {
    && (forall i :: 0 <= i < |order| ==> order[i] in s.classes)
    && (forall a :: a in attrs <==> exists i :: 0 <= i < |order| && a in Keys(Declared(s.classes[order[i]])))
    && (forall a :: a in attrs ==> (attrs[a] <==> exists i :: 0 <= i < |order| && a in Keys(s.classes[order[i]].must)))
  }

  datatype Failure = UnknownClass | Cycle | BadMember

  // Why a walk failed.
  ghost predicate Justified(s: Schema, roots: seq<bytes>, f: Failure)
  {
    exists k :: Reachable(s, roots, k) &&
      match f
      case UnknownClass => k !in s.classes
      case Cycle => OnCycle(s, k)
      case BadMember => k in s.classes && !GoodNames(s, Declared(s.classes[k]))
  }

  // ------------------------------------------------------------------- lemmas

  // The next class of the walk: a root, or a superclass of the last one on the stack.
  ghost predicate Next(s: Schema, roots: seq<bytes>, stack: seq<bytes>, k: bytes)
  {
    if stack == [] then exists i :: 0 <= i < |roots| && Lower(roots[i]) == k
    else FromRoot(s, roots, stack) && Edge(s, stack[|stack| - 1], k)
  }

  lemma NextReachable(s: Schema, roots: seq<bytes>, stack: seq<bytes>, k: bytes)
    requires Next(s, roots, stack, k)
    ensures FromRoot(s, roots, stack + [k]) && Reachable(s, roots, k)
  {
    hide Edge, Lower;
    var p := stack + [k];
    assert forall i :: 0 <= i < |stack| ==> p[i] == stack[i];
    assert IsPath(s, p);
    assert FromRoot(s, roots, p) && p[|p| - 1] == k;
  }

  lemma StackCycle(s: Schema, roots: seq<bytes>, stack: seq<bytes>, k: bytes)
    requires stack != [] && Next(s, roots, stack, k) && k in stack
    ensures OnCycle(s, k)
  {
    hide Edge, Lower;
    var i :| 0 <= i < |stack| && stack[i] == k;
    var p := stack[i..] + [k];
    forall j | 0 < j < |p| ensures Edge(s, p[j - 1], p[j]) {
      if j < |p| - 1 { assert Edge(s, stack[i + j - 1], stack[i + j]); }
    }
    assert IsPath(s, p) && |p| > 1 && p[0] == k && p[|p| - 1] == k;
  }

  lemma FinishMore(s: Schema, order: seq<bytes>, k: bytes)
    requires Finished(s, order) && k !in order && GoodClass(s, k)
    requires forall i :: 0 <= i < |s.classes[k].sup| ==> Lower(s.classes[k].sup[i]) in order
    ensures Finished(s, order + [k])
  {
    hide GoodNames, Lower;
    var more := order + [k];
    forall i, j | 0 <= i < |more| && Edge(s, more[i], j) ensures j in more[..i] {
      if i < |order| { assert more[..i] == order[..i]; } else { assert more[..i] == order; }
    }
  }

  // What adding the members of one class does to those collected.
  ghost predicate Merged(before: map<bytes, bool>, after: map<bytes, bool>, names: set<bytes>, required: set<bytes>)
  {
    && after.Keys == before.Keys + names
    && forall a :: a in after ==> (after[a] <==> (a in before && before[a]) || a in required)
  }

  lemma CollectMore(s: Schema, order: seq<bytes>, attrs: map<bytes, bool>, k: bytes, after: map<bytes, bool>)
    requires Collected(s, order, attrs) && k in s.classes
    requires Merged(attrs, after, Keys(Declared(s.classes[k])), Keys(s.classes[k].must))
    ensures Collected(s, order + [k], after)
  {
    hide Keys, Declared;
    var more := order + [k];
    assert more[|order|] == k && forall i :: 0 <= i < |order| ==> more[i] == order[i];
    forall a ensures a in after <==> exists i :: 0 <= i < |more| && a in Keys(Declared(s.classes[more[i]])) {
      if a in attrs {
        var i :| 0 <= i < |order| && a in Keys(Declared(s.classes[order[i]]));
        assert a in Keys(Declared(s.classes[more[i]]));
      }
      if a in Keys(Declared(s.classes[k])) { assert a in Keys(Declared(s.classes[more[|order|]])); }
    }
    forall a | a in after ensures after[a] <==> exists i :: 0 <= i < |more| && a in Keys(s.classes[more[i]].must) {
      if a in attrs && attrs[a] {
        var i :| 0 <= i < |order| && a in Keys(s.classes[order[i]].must);
        assert a in Keys(s.classes[more[i]].must);
      }
      if a in Keys(s.classes[k].must) { assert a in Keys(s.classes[more[|order|]].must); }
      if exists i :: 0 <= i < |order| && a in Keys(s.classes[order[i]].must) {
        var i :| 0 <= i < |order| && a in Keys(s.classes[order[i]].must);
        MustIsDeclared(s.classes[order[i]], a);
      }
    }
  }

  lemma MustIsDeclared(c: ObjectClass, a: bytes)
    requires a in Keys(c.must)
    ensures a in Keys(Declared(c))
  {
    var i :| 0 <= i < |c.must| && Lower(c.must[i]) == a;
    assert Declared(c)[i] == c.must[i];
  }

  class Walker {
    const schema: Schema
    var seen: set<bytes>
    var active: set<bytes>
    var classes: seq<bytes>
    var attrs: map<bytes, bool>
    ghost var order: seq<bytes>         // the keys of classes
    ghost var stack: seq<bytes>         // the classes being walked, outermost first

    ghost predicate Valid(roots: seq<bytes>)
      reads this
    {
      && Finished(schema, order) && AllReachable(schema, roots, order) && Collected(schema, order, attrs)
      && |classes| == |order| && (forall i :: 0 <= i < |order| ==> order[i] in schema.classes && classes[i] == schema.classes[order[i]].name)
      && (forall k :: k in seen <==> k in order)
      && (forall k :: k in active <==> k in stack) && (stack != [] ==> FromRoot(schema, roots, stack))
      && active <= schema.classes.Keys && active !! seen
      && (forall i, j :: 0 <= i < j < |stack| ==> stack[i] != stack[j])
    }

    constructor (schema: Schema, roots: seq<bytes>)
      ensures this.schema == schema && Valid(roots) && order == [] && stack == []
    {
      this.schema := schema;
      seen, active, classes, attrs, order, stack := {}, {}, [], map[], [], [];
    }

    // One list of member names: each must be a known attribute and new to the class.
    method Declare(names: seq<bytes>, required: bool, declared: set<bytes>) returns (ok: bool, grown: set<bytes>)
      modifies `attrs
      ensures ok <==> GoodNames(schema, names) && Keys(names) !! declared
      ensures ok ==> grown == declared + Keys(names) && Merged(old(attrs), attrs, Keys(names), if required then Keys(names) else {})
    {
      hide GoodNames, Keys, Lower;
      grown := declared;
      ghost var before := attrs;
      NoNames(schema, names);
      for i := 0 to |names|
        invariant GoodNames(schema, names[..i]) && Keys(names[..i]) !! declared && grown == declared + Keys(names[..i])
        invariant Merged(before, attrs, Keys(names[..i]), if required then Keys(names[..i]) else {})
      {
        var a := Lower(names[i]);
        KeysMore(names, i);
        GoodMore(schema, names, i);
        if a !in schema.attributes {
          return false, grown;
        }
        if a in grown {
          return false, grown;
        }
        grown := grown + {a};
        attrs := attrs[a := (a in attrs && attrs[a]) || required];
      }
      assert names[..|names|] == names;
      return true, grown;
    }

    // The members of one class, required names first.
    method DeclareMembers(c: ObjectClass) returns (ok: bool)
      modifies `attrs
      ensures ok <==> GoodNames(schema, Declared(c))
      ensures ok ==> Merged(old(attrs), attrs, Keys(Declared(c)), Keys(c.must))
    {
      hide GoodNames, Keys;
      BothLists(schema, c.must, c.may);
      ghost var before := attrs;
      var declared: set<bytes>;
      ok, declared := Declare(c.must, true, {});
      if !ok {
        return;
      }
      ghost var middle := attrs;
      ok, declared := Declare(c.may, false, declared);
      if ok {
        MergeTwice(before, middle, attrs, c);
      }
    }

    /** One class and, before it, its superclasses. It fails only for a reason that
        the schema has; it ends because the classes being walked are distinct. */
    method Walk(name: bytes, ghost roots: seq<bytes>) returns (failure: Option<Failure>)
      requires Valid(roots) && Next(schema, roots, stack, Lower(name))
      modifies this
      ensures failure.Some? ==> Justified(schema, roots, failure.value)
      ensures failure.None? ==> Valid(roots) && stack == old(stack) && old(order) <= order && Lower(name) in seen
      decreases schema.classes.Keys - active, 1
    {
      hide Finished, AllReachable, Collected, FromRoot, GoodNames, Lower, Next;
      var key := Lower(name);
      NextReachable(schema, roots, stack, key);
      if key !in schema.classes {
        return Some(UnknownClass);
      }
      if key in active {
        StackCycle(schema, roots, stack, key);
        return Some(Cycle);
      }
      if key in seen {
        return None;
      }
      active, stack := active + {key}, stack + [key];
      failure := WalkSups(key, roots);
      if failure.Some? {
        return;
      }
      active, stack := active - {key}, old(stack);
      assert Valid(roots);
      failure := Finish(key, roots);
    }

    // The loop over the superclasses of the class on top of the stack.
    method WalkSups(key: bytes, ghost roots: seq<bytes>) returns (failure: Option<Failure>)
      requires Valid(roots) && stack != [] && stack[|stack| - 1] == key && key in schema.classes
      modifies this
      ensures failure.Some? ==> Justified(schema, roots, failure.value)
      ensures failure.None? ==> Valid(roots) && stack == old(stack) && old(order) <= order
      ensures failure.None? ==> forall j :: 0 <= j < |schema.classes[key].sup| ==> Lower(schema.classes[key].sup[j]) in seen
      decreases schema.classes.Keys - active, 2
    {
      hide Finished, AllReachable, Collected, FromRoot, GoodNames, Lower, Justified;
      var sup := schema.classes[key].sup;
      failure := None;
      for i := 0 to |sup|
        invariant failure.None? && Valid(roots) && stack == old(stack) && old(order) <= order
        invariant forall j :: 0 <= j < i ==> Lower(sup[j]) in seen
      {
        assert Edge(schema, key, Lower(sup[i]));
        ghost var sofar := order;
        assert active == old(active) by { SameMembers(active, old(active), stack); }
        failure := Walk(sup[i], roots);
        if failure.Some? {
          return;
        }
        assert forall k :: k in sofar ==> k in order;
      }
    }

    // A class whose superclasses are finished.
    method Finish(key: bytes, ghost roots: seq<bytes>) returns (failure: Option<Failure>)
      requires Valid(roots) && key in schema.classes && key !in seen && key !in active && Reachable(schema, roots, key)
      requires forall j :: 0 <= j < |schema.classes[key].sup| ==> Lower(schema.classes[key].sup[j]) in seen
      modifies this
      ensures failure.Some? ==> Justified(schema, roots, failure.value)
      ensures failure.None? ==> Valid(roots) && stack == old(stack) && old(order) <= order && key in seen
    {
      hide Finished, AllReachable, Collected, FromRoot, GoodNames, Lower, Reachable;
      var c := schema.classes[key];
      seen := seen + {key};
      classes := classes + [c.name];
      var ok := DeclareMembers(c);
      if !ok {
        return Some(BadMember);
      }
      FinishMore(schema, order, key);
      CollectMore(schema, order, old(attrs), key, attrs);
      ReachMore(schema, roots, order, key);
      order := order + [key];
      return None;
    }
  }

  lemma SameMembers(a: set<bytes>, b: set<bytes>, s: seq<bytes>)
    requires (forall k :: k in a <==> k in s) && (forall k :: k in b <==> k in s)
    ensures a == b
  {
  }

  lemma ReachMore(s: Schema, roots: seq<bytes>, order: seq<bytes>, k: bytes)
    requires AllReachable(s, roots, order) && Reachable(s, roots, k)
    ensures AllReachable(s, roots, order + [k])
  {
    hide Reachable;
  }

  lemma BothLists(s: Schema, must: seq<bytes>, may: seq<bytes>)
    ensures GoodNames(s, must + may) <==> GoodNames(s, must) && GoodNames(s, may) && Keys(may) !! Keys(must)
    ensures Keys(must + may) == Keys(must) + Keys(may)
  {
    hide Lower;
    var all := must + may;
    assert forall i :: 0 <= i < |must| ==> all[i] == must[i];
    assert forall i :: 0 <= i < |may| ==> all[|must| + i] == may[i];
    assert forall i :: |must| <= i < |all| ==> all[i] == may[i - |must|];
    forall a | a in Keys(must) + Keys(may) ensures a in Keys(all) {
      if a in Keys(must) {
        var i :| 0 <= i < |must| && Lower(must[i]) == a;
        assert Lower(all[i]) == a;
      } else {
        var i :| 0 <= i < |may| && Lower(may[i]) == a;
        assert Lower(all[|must| + i]) == a;
      }
    }
    if GoodNames(s, all) {
      forall i | 0 <= i < |may| ensures Lower(may[i]) !in Keys(must) && Lower(may[i]) in s.attributes {
        assert all[|must| + i] == may[i];
      }
      forall i, j | 0 <= i < j < |may| ensures Lower(may[i]) != Lower(may[j]) {
        assert Lower(all[|must| + i]) != Lower(all[|must| + j]);
      }
    }
    if GoodNames(s, must) && GoodNames(s, may) && Keys(may) !! Keys(must) {
      forall i, j | 0 <= i < j < |all| ensures Lower(all[i]) != Lower(all[j]) {
        if i < |must| <= j { assert Lower(must[i]) in Keys(must) && Lower(may[j - |must|]) in Keys(may); }
      }
    }
  }

  lemma MergeTwice(before: map<bytes, bool>, middle: map<bytes, bool>, after: map<bytes, bool>, c: ObjectClass)
    requires Merged(before, middle, Keys(c.must), Keys(c.must)) && Merged(middle, after, Keys(c.may), {})
    requires Keys(Declared(c)) == Keys(c.must) + Keys(c.may)
    ensures Merged(before, after, Keys(Declared(c)), Keys(c.must))
  {
    hide Keys;
  }

  lemma NoNames(s: Schema, names: seq<bytes>)
    ensures names[..0] == [] && GoodNames(s, names[..0]) && Keys(names[..0]) == {}
  {
  }

  // One more name: known, and new.
  lemma GoodMore(s: Schema, names: seq<bytes>, i: nat)
    requires i < |names| && GoodNames(s, names[..i])
    ensures GoodNames(s, names[..i + 1]) <==> Lower(names[i]) in s.attributes && Lower(names[i]) !in Keys(names[..i])
    ensures GoodNames(s, names) ==> GoodNames(s, names[..i + 1])
  {
    hide Lower;
    var shorter, longer := names[..i], names[..i + 1];
    assert forall k :: 0 <= k < i ==> shorter[k] == names[k];
    assert forall k :: 0 <= k <= i ==> longer[k] == names[k];
    if Lower(names[i]) in Keys(shorter) {
      var k :| 0 <= k < i && Lower(shorter[k]) == Lower(names[i]);
      assert Lower(longer[k]) == Lower(longer[i]);
    } else {
      assert forall k :: 0 <= k < i ==> Lower(shorter[k]) in Keys(shorter);
    }
  }

  lemma KeysMore(names: seq<bytes>, i: nat)
    requires i < |names|
    ensures Keys(names[..i + 1]) == Keys(names[..i]) + {Lower(names[i])}
    ensures forall k :: 0 <= k < i ==> Lower(names[k]) in Keys(names[..i])
    ensures Keys(names[..i]) <= Keys(names) && Lower(names[i]) in Keys(names)
  {
    hide Lower;
    assert forall k :: 0 <= k < i ==> names[..i][k] == names[k];
    assert forall k :: 0 <= k <= i ==> names[..i + 1][k] == names[k];
  }

  // ------------------------------------------------------------------ the theorem

  // Everything on a path from a finished class is finished, at ever earlier places.
  lemma {:induction false} PathDescends(s: Schema, order: seq<bytes>, p: seq<bytes>, i: nat) returns (j: nat)
    requires Finished(s, order) && IsPath(s, p) && i < |order| && order[i] == p[0]
    ensures j < |order| && order[j] == p[|p| - 1] && j + |p| - 1 <= i
    decreases |p|
  {
    hide Edge, GoodClass;
    if |p| == 1 {
      return i;
    }
    assert Edge(s, p[0], p[1]);
    var k :| 0 <= k < i && order[..i][k] == p[1];
    var q := p[1..];
    assert forall x :: 0 <= x < |q| ==> q[x] == p[x + 1];
    assert IsPath(s, q);
    j := PathDescends(s, order, q, k);
  }

  // A finished order that has the roots is all that is reachable, and has no cycle.
  lemma FinishedResolves(s: Schema, roots: seq<bytes>, order: seq<bytes>)
    requires Finished(s, order) && AllReachable(s, roots, order)
    requires forall i :: 0 <= i < |roots| ==> Lower(roots[i]) in order
    ensures Resolvable(s, roots)
    ensures forall k :: Reachable(s, roots, k) <==> k in order
  {
    hide Lower, GoodClass;
    forall k | Reachable(s, roots, k) ensures k in order && GoodClass(s, k) && !OnCycle(s, k) {
      var p :| FromRoot(s, roots, p) && p[|p| - 1] == k;
      var i :| 0 <= i < |order| && order[i] == p[0];
      var j := PathDescends(s, order, p, i);
      if OnCycle(s, k) {
        var q :| IsPath(s, q) && |q| > 1 && q[0] == k && q[|q| - 1] == k;
        var m := PathDescends(s, order, q, j);
      }
    }
  }

  lemma NotResolvable(s: Schema, roots: seq<bytes>, f: Failure)
    requires Justified(s, roots, f)
    ensures !Resolvable(s, roots)
  {
    hide Reachable, OnCycle, GoodNames;
  }

  datatype Resolution = Resolution(classes: seq<bytes>, attrs: map<bytes, bool>)

  /** members succeeds exactly on resolvable input, whatever cycles it has. It then
      lists every reachable class once, after all of its superclasses, and every
      member of one of them, required exactly if one of them requires it. */
  method Members(s: Schema, roots: seq<bytes>) returns (r: Option<Resolution>, ghost order: seq<bytes>)
    ensures r.Some? <==> Resolvable(s, roots)
    ensures r.Some? ==>
              && (forall k :: k in order <==> Reachable(s, roots, k))
              && (forall i, j :: 0 <= i < j < |order| ==> order[i] != order[j])
              && (forall i, j :: 0 <= i < |order| && Edge(s, order[i], j) ==> j in order[..i])
              && |r.value.classes| == |order|
              && (forall i :: 0 <= i < |order| ==> order[i] in s.classes && r.value.classes[i] == s.classes[order[i]].name)
              && Collected(s, order, r.value.attrs)
  {
    hide Lower, Reachable, GoodNames, Collected, Edge, Resolvable;
    var w := new Walker(s, roots);
    for i := 0 to |roots|
      invariant w.schema == s && w.Valid(roots) && w.stack == []
      invariant forall j :: 0 <= j < i ==> Lower(roots[j]) in w.seen
    {
      ghost var sofar := w.order;
      var failure := w.Walk(roots[i], roots);
      if failure.Some? {
        NotResolvable(s, roots, failure.value);
        return None, [];
      }
      assert forall k :: k in sofar ==> k in w.order;
    }
    order := w.order;
    FinishedResolves(s, roots, order);
    return Some(Resolution(w.classes, w.attrs)), order;
  }
}
