/** Attribute descriptions and the indexed attribute collection
    (rfc4511/attributes.go). Text is octets; lower case is that of ASCII. */
module Attributes {
  import opened BerTypes

  const SEMICOLON: byte := 0x3B

  // ------------------------------------------------------------------- strings

  function LowerByte(b: byte): byte { if 0x41 <= b <= 0x5A then b + 0x20 else b }

  function Lower(s: bytes): (r: bytes)
    ensures |r| == |s| && forall i :: 0 <= i < |s| ==> r[i] == LowerByte(s[i])
  {
    if s == [] then [] else [LowerByte(s[0])] + Lower(s[1..])
  }

  const UPPER := "ABCDEFGHIJKLMNOPQRSTUVWXYZ"
  const LOWER := "abcdefghijklmnopqrstuvwxyz"

  // The two forms of the same letter.
  ghost predicate Forms(a: byte, b: byte)
  {
    exists k :: 0 <= k < 26 && a == UPPER[k] as int && b == LOWER[k] as int
  }

  ghost predicate SameLetter(a: byte, b: byte) { a == b || Forms(a, b) || Forms(b, a) }

  // The two texts differ at most in the case of letters.
  ghost predicate SameText(s: bytes, t: bytes) { |s| == |t| && forall i :: 0 <= i < |s| ==> SameLetter(s[i], t[i]) }

  lemma Alphabet(k: nat)
    requires k < 26
    ensures UPPER[k] as int == 0x41 + k && LOWER[k] as int == 0x61 + k
  {
  }

  lemma FormsAre(a: byte, b: byte)
    ensures Forms(a, b) <==> 0x41 <= a <= 0x5A && b == a + 0x20
  {
    forall k | 0 <= k < 26 ensures UPPER[k] as int == 0x41 + k && LOWER[k] as int == 0x61 + k { Alphabet(k); }
    if 0x41 <= a <= 0x5A && b == a + 0x20 { Alphabet(a - 0x41); }
  }

  /** Lower case forgets the case of letters, and nothing else. */
  lemma LowerForgetsCase(s: bytes, t: bytes)
    ensures Lower(s) == Lower(t) <==> SameText(s, t)
  {
    forall i | 0 <= i < |s| && |s| == |t| ensures SameLetter(s[i], t[i]) <==> Lower(s)[i] == Lower(t)[i] {
      FormsAre(s[i], t[i]);
      FormsAre(t[i], s[i]);
    }
    hide Lower, SameLetter;
    if SameText(s, t) { assert Lower(s) == Lower(t); }
    if Lower(s) == Lower(t) { assert |s| == |t|; }
  }

  /** What it gives differs from the text at most in case, and has no capital letter. */
  lemma LowerIsLower(s: bytes, i: nat, k: nat)
    requires i < |s| && k < 26
    ensures SameLetter(s[i], Lower(s)[i]) && Lower(s)[i] != UPPER[k] as int
  {
    Alphabet(k);
    FormsAre(s[i], Lower(s)[i]);
  }

  predicate Plain(s: bytes) { SEMICOLON !in s }

  // strings.Cut at the first semicolon
  function Cut(s: bytes): (r: (bytes, bytes, bool))
    ensures Plain(r.0)
    ensures if r.2 then s == r.0 + [SEMICOLON] + r.1 else s == r.0 && r.1 == []
  {
    if s == [] then ([], [], false)
    else if s[0] == SEMICOLON then ([], s[1..], true)
    else var (before, after, found) := Cut(s[1..]); ([s[0]] + before, after, found)
  }

  lemma {:induction false} CutPlain(a: bytes, b: bytes)
    requires Plain(a)
    ensures Cut(a) == (a, [], false)
    ensures Cut(a + [SEMICOLON] + b) == (a, b, true)
    decreases |a|
  {
    var s := a + [SEMICOLON] + b;
    if a == [] {
      assert s[1..] == b;
    } else {
      CutPlain(a[1..], b);
      assert s[1..] == a[1..] + [SEMICOLON] + b;
      assert [a[0]] + a[1..] == a;
    }
  }

  // strings.Split at semicolons: never empty
  function Split(s: bytes): (parts: seq<bytes>)
    ensures parts != [] && forall i :: 0 <= i < |parts| ==> Plain(parts[i])
    decreases |s|
  {
    var (before, after, found) := Cut(s);
    if found then [before] + Split(after) else [before]
  }

  function Join(parts: seq<bytes>): bytes
  {
    if parts == [] then [] else if |parts| == 1 then parts[0] else parts[0] + [SEMICOLON] + Join(parts[1..])
  }

  lemma {:induction false} SplitJoin(parts: seq<bytes>)
    requires parts != [] && forall i :: 0 <= i < |parts| ==> Plain(parts[i])
    ensures Split(Join(parts)) == parts
    decreases |parts|
  {
    if |parts| == 1 {
      CutPlain(parts[0], []);
    } else {
      CutPlain(parts[0], Join(parts[1..]));
      SplitJoin(parts[1..]);
    }
  }

  lemma {:induction false} JoinSplit(s: bytes)
    ensures Join(Split(s)) == s
    decreases |s|
  {
    var (before, after, found) := Cut(s);
    if found {
      JoinSplit(after);
      assert Split(s)[1..] == Split(after);
    }
  }

  // Go's order on strings.
  predicate Before(a: bytes, b: bytes)
  {
    if b == [] then false
    else if a == [] then true
    else a[0] < b[0] || (a[0] == b[0] && Before(a[1..], b[1..]))
  }

  lemma {:induction false} BeforeTotal(a: bytes, b: bytes)
    ensures (a == b) == (!Before(a, b) && !Before(b, a))
    ensures !(Before(a, b) && Before(b, a))
    decreases |a|
  {
    if a != [] && b != [] {
      BeforeTotal(a[1..], b[1..]);
      assert a == [a[0]] + a[1..] && b == [b[0]] + b[1..];
    }
  }

  lemma {:induction false} BeforeTransitive(a: bytes, b: bytes, c: bytes)
    requires Before(a, b) && Before(b, c)
    ensures Before(a, c)
    decreases |a|
  {
    if a != [] && a[0] == b[0] == c[0] { BeforeTransitive(a[1..], b[1..], c[1..]); }
  }

  // ------------------------------------------------------------- sorted options

  ghost predicate Increasing(s: seq<bytes>)
  {
    forall i, j :: 0 <= i < j < |s| ==> Before(s[i], s[j])
  }

  ghost predicate NonDecreasing(s: seq<bytes>)
  {
    forall i, j :: 0 <= i < j < |s| ==> !Before(s[j], s[i])
  }

  function Members(s: seq<bytes>): set<bytes> { set i | 0 <= i < |s| :: s[i] }

  function Insert(x: bytes, s: seq<bytes>): seq<bytes>
  {
    if s == [] || !Before(s[0], x) then [x] + s else [s[0]] + Insert(x, s[1..])
  }

  // slices.Sort
  function Sort(s: seq<bytes>): seq<bytes>
  {
    if s == [] then [] else Insert(s[0], Sort(s[1..]))
  }

  // slices.Compact
  function Compact(s: seq<bytes>): seq<bytes>
  {
    if |s| <= 1 then s
    else if s[0] == s[1] then Compact(s[1..])
    else [s[0]] + Compact(s[1..])
  }

  lemma MembersCons(x: bytes, s: seq<bytes>)
    ensures Members([x] + s) == {x} + Members(s)
  {
    forall y | y in Members([x] + s) ensures y in {x} + Members(s) {
      var i :| 0 <= i < |[x] + s| && ([x] + s)[i] == y;
      if i > 0 { assert s[i - 1] == y; }
    }
    forall y | y in Members(s) ensures y in Members([x] + s) {
      var i :| 0 <= i < |s| && s[i] == y;
      assert ([x] + s)[i + 1] == y;
    }
    assert ([x] + s)[0] == x;
  }

  lemma MembersFirst(s: seq<bytes>)
    requires s != []
    ensures Members(s) == {s[0]} + Members(s[1..])
  {
    MembersCons(s[0], s[1..]);
    assert [s[0]] + s[1..] == s;
  }

  lemma {:induction false} InsertSorts(x: bytes, s: seq<bytes>)
    requires NonDecreasing(s)
    ensures NonDecreasing(Insert(x, s)) && Members(Insert(x, s)) == {x} + Members(s)
    decreases |s|
  {
    if s == [] || !Before(s[0], x) {
      MembersCons(x, s);
      forall j | 0 <= j < |s| ensures !Before(s[j], x) {
        if j > 0 && Before(s[j], x) { NotBeforeLater(s[0], s[j], x); }
      }
    } else {
      var rest := Insert(x, s[1..]);
      InsertSorts(x, s[1..]);
      MembersCons(s[0], rest);
      MembersFirst(s);
      forall j | 0 <= j < |rest| ensures !Before(rest[j], s[0]) {
        assert rest[j] in {x} + Members(s[1..]);
        BeforeTotal(s[0], x);
        if rest[j] != x {
          var k :| 0 <= k < |s[1..]| && s[1..][k] == rest[j];
          assert s[k + 1] == rest[j];
        }
      }
    }
  }

  // a is at most b, and b is below x.
  lemma NotBeforeLater(a: bytes, b: bytes, x: bytes)
    requires !Before(b, a) && Before(b, x)
    ensures Before(a, x)
  {
    BeforeTotal(a, b);
    if a != b { BeforeTransitive(a, b, x); }
  }

  lemma {:induction false} SortSorts(s: seq<bytes>)
    ensures NonDecreasing(Sort(s)) && Members(Sort(s)) == Members(s)
    decreases |s|
  {
    if s != [] {
      SortSorts(s[1..]);
      InsertSorts(s[0], Sort(s[1..]));
      MembersFirst(s);
    }
  }

  lemma {:induction false} CompactSorts(s: seq<bytes>)
    requires NonDecreasing(s)
    ensures Increasing(Compact(s)) && Members(Compact(s)) == Members(s)
    ensures s != [] ==> Compact(s) != [] && Compact(s)[0] == s[0]
    decreases |s|
  {
    if |s| > 1 {
      CompactSorts(s[1..]);
      MembersFirst(s);
      if s[0] == s[1] {
        assert s[1..][0] == s[0] && s[0] in Members(s[1..]);
      } else {
        var rest := Compact(s[1..]);
        MembersCons(s[0], rest);
        assert rest[0] == s[1];
        BeforeTotal(s[0], s[1]);
        forall j | 0 <= j < |rest| ensures Before(s[0], rest[j]) {
          if j > 0 { BeforeTransitive(s[0], s[1], rest[j]); }
        }
      }
    }
  }

  // A strictly increasing list is determined by its members.
  lemma {:induction false} IncreasingUnique(s: seq<bytes>, t: seq<bytes>)
    requires Increasing(s) && Increasing(t) && Members(s) == Members(t)
    ensures s == t
    decreases |s|
  {
    NoMembers(s);
    NoMembers(t);
    if s != [] {
      assert s[0] in Members(t) && t[0] in Members(s);
      FirstAgree(s, t);
      MembersFirst(s);
      MembersFirst(t);
      NotAgain(s);
      NotAgain(t);
      IncreasingUnique(s[1..], t[1..]);
      assert s == [s[0]] + s[1..] && t == [t[0]] + t[1..];
    }
  }

  lemma NoMembers(s: seq<bytes>)
    ensures Members(s) == {} <==> s == []
  {
    if s != [] { assert s[0] in Members(s); }
  }

  lemma NotAgain(s: seq<bytes>)
    requires s != [] && Increasing(s)
    ensures s[0] !in Members(s[1..])
  {
    if s[0] in Members(s[1..]) {
      var i :| 0 <= i < |s[1..]| && s[1..][i] == s[0];
      BeforeTotal(s[0], s[i + 1]);
    }
  }

  lemma FirstAgree(s: seq<bytes>, t: seq<bytes>)
    requires Increasing(s) && Increasing(t) && s != [] && t != [] && s[0] in Members(t) && t[0] in Members(s)
    ensures s[0] == t[0]
  {
    var i :| 0 <= i < |t| && t[i] == s[0];
    var j :| 0 <= j < |s| && s[j] == t[0];
    if i > 0 && j > 0 { BeforeTotal(s[0], t[0]); }
  }

  // ---------------------------------------------------------------------- keys

  // The options of a description in lower case, in the order written.
  function OptionList(d: bytes): seq<bytes>
  {
    var (_, options, found) := Cut(Lower(d));
    if found then Split(options) else []
  }

  function BaseOf(d: bytes): bytes { Cut(Lower(d)).0 }

  // The key: the base, and the options sorted and without repetitions.
  function KeyOf(d: bytes): bytes
  {
    var (base, options, found) := Cut(Lower(d));
    if !found then base else base + [SEMICOLON] + Join(Compact(Sort(Split(options))))
  }

  lemma CanonicalOptions(s: seq<bytes>)
    ensures Increasing(Compact(Sort(s))) && Members(Compact(Sort(s))) == Members(s)
    ensures s != [] ==> Compact(Sort(s)) != []
  {
    SortSorts(s);
    CompactSorts(Sort(s));
    if s != [] { assert s[0] in Members(s); }
  }

  /** Two descriptions have the same key exactly when their bases agree in lower
      case and their options agree, in lower case, as sets. */
  lemma SameKey(d: bytes, e: bytes)
    ensures KeyOf(d) == KeyOf(e) <==> BaseOf(d) == BaseOf(e) && Members(OptionList(d)) == Members(OptionList(e))
  {
    var (b, o, f) := Cut(Lower(d));
    var (c, p, g) := Cut(Lower(e));
    var s, t := Compact(Sort(Split(o))), Compact(Sort(Split(p)));
    CanonicalOptions(Split(o));
    CanonicalOptions(Split(p));
    assert Split(o)[0] in Members(Split(o)) && Split(p)[0] in Members(Split(p));
    CutPlain(b, Join(s));
    CutPlain(c, Join(t));
    if f && g {
      if KeyOf(d) == KeyOf(e) {
        PlainMembers(Split(o), s);
        PlainMembers(Split(p), t);
        SplitJoin(s);
        SplitJoin(t);
      }
      if Members(OptionList(d)) == Members(OptionList(e)) { IncreasingUnique(s, t); }
    }
  }

  /** Descriptions that differ only in the case of letters have the same key. */
  lemma KeyForgetsCase(d: bytes, e: bytes)
    requires SameText(d, e)
    ensures KeyOf(d) == KeyOf(e)
  {
    LowerForgetsCase(d, e);
  }

  lemma PlainMembers(s: seq<bytes>, t: seq<bytes>)
    requires Members(t) == Members(s) && forall i :: 0 <= i < |s| ==> Plain(s[i])
    ensures forall i :: 0 <= i < |t| ==> Plain(t[i])
  {
    forall i | 0 <= i < |t| ensures Plain(t[i]) {
      assert t[i] in Members(s);
      var k :| 0 <= k < |s| && s[k] == t[i];
    }
  }

  // Options that are strictly increasing are already canonical.
  lemma AlreadyCanonical(s: seq<bytes>)
    requires Increasing(s)
    ensures Compact(Sort(s)) == s
  {
    CanonicalOptions(s);
    IncreasingUnique(Compact(Sort(s)), s);
  }

  /** AttributeDescription.Key. Options that are found in strictly increasing order
      are left as they are; otherwise they are split, sorted and compacted; both come
      to the canonical key. */
  method Key(d: bytes) returns (key: bytes)
    ensures key == KeyOf(d)
  {
    var name := Lower(d);
    var (base, options, found) := Cut(name);
    if !found {
      return name;
    }
    JoinSplit(options);
    var (previous, rest, more) := Cut(options);
    var canonical := true;
    ghost var seen := [previous];
    assert more ==> Split(options) == seen + Split(rest);
    while more
      invariant canonical && seen != [] && previous == seen[|seen| - 1] && Increasing(seen)
      invariant Split(options) == seen + (if more then Split(rest) else [])
      decreases if more then |rest| + 1 else 0
    {
      var (next, after, again) := Cut(rest);
      assert Split(rest) == [next] + (if again then Split(after) else []);
      rest, more := after, again;
      if !Before(previous, next) {
        canonical := false;
        break;
      }
      ExtendIncreasing(seen, next);
      seen := seen + [next];
      previous := next;
    }
    if canonical {
      assert Split(options) == seen;
      AlreadyCanonical(seen);
      return name;
    }
    var parts := Sort(Split(options));
    return base + [SEMICOLON] + Join(Compact(parts));
  }

  lemma ExtendIncreasing(s: seq<bytes>, x: bytes)
    requires s != [] && Increasing(s) && Before(s[|s| - 1], x)
    ensures Increasing(s + [x])
  {
    forall i | 0 <= i < |s| ensures Before(s[i], x) {
      if i < |s| - 1 { BeforeTransitive(s[i], s[|s| - 1], x); }
    }
  }

  // ---------------------------------------------------------- the list it stands for

  datatype Attribute = Attribute(description: bytes, values: seq<bytes>)

  // The reference: a list in insertion order, scanned from the front.
  function Position(list: seq<Attribute>, key: bytes): (i: nat)
    ensures i <= |list|
    ensures i < |list| ==> KeyOf(list[i].description) == key
    ensures forall j :: 0 <= j < i ==> KeyOf(list[j].description) != key
  {
    if list == [] || KeyOf(list[0].description) == key then 0 else 1 + Position(list[1..], key)
  }

  function Find(list: seq<Attribute>, key: bytes): Option<Attribute>
  {
    var i := Position(list, key);
    if i < |list| then Some(list[i]) else None
  }

  function Put(list: seq<Attribute>, a: Attribute): seq<Attribute>
  {
    var i := Position(list, KeyOf(a.description));
    if i < |list| then list[i := a] else list + [a]
  }

  function Without(list: seq<Attribute>, key: bytes): seq<Attribute>
  {
    var i := Position(list, key);
    if i < |list| then list[..i] + list[i + 1..] else list
  }

  ghost predicate Distinct(list: seq<Attribute>)
  {
    forall i, j :: 0 <= i < j < |list| ==> KeyOf(list[i].description) != KeyOf(list[j].description)
  }

  lemma PositionIs(list: seq<Attribute>, key: bytes, i: nat)
    requires Distinct(list) && i < |list| && KeyOf(list[i].description) == key
    ensures Position(list, key) == i
  {
    hide KeyOf, Position;
    var k := Position(list, key);
    assert k <= i && KeyOf(list[k].description) == KeyOf(list[i].description);
  }

  /** Setting one attribute changes what its key finds and nothing else. */
  lemma FindPut(list: seq<Attribute>, a: Attribute, key: bytes)
    requires Distinct(list)
    ensures Distinct(Put(list, a))
    ensures Find(Put(list, a), key) == if key == KeyOf(a.description) then Some(a) else Find(list, key)
  {
    hide KeyOf, Position;
    var after := Put(list, a);
    var i, k, m := Position(list, KeyOf(a.description)), Position(list, key), Position(after, key);
    assert Distinct(after);
    PositionIs(after, KeyOf(a.description), i);
    if key != KeyOf(a.description) {
      if k < |list| { PositionIs(after, key, k); }
      if m < |after| { assert m < |list| && after[m] == list[m]; }
    }
  }

  /** Deleting a key makes it absent, keeps every other attribute, and their order. */
  lemma FindWithout(list: seq<Attribute>, key: bytes, other: bytes)
    requires Distinct(list)
    ensures Distinct(Without(list, key))
    ensures Find(Without(list, key), other) == if other == key then None else Find(list, other)
  {
    hide KeyOf, Position, Distinct;
    var i, k := Position(list, key), Position(list, other);
    if i < |list| {
      ShiftDown(list, i);
      if other == key {
        Others(list, i);
        Absent(Without(list, key), other, list, i);
      } else if k < |list| {
        PositionIs(Without(list, key), other, if k < i then k else k - 1);
      } else {
        Absent(Without(list, key), other, list, i);
      }
    }
  }

  // A key that only position i may have is not found once i is gone.
  lemma Absent(after: seq<Attribute>, key: bytes, list: seq<Attribute>, i: nat)
    requires i < |list| && |after| == |list| - 1
    requires forall x :: 0 <= x < |after| ==> after[x] == list[if x < i then x else x + 1]
    requires forall j :: 0 <= j < |list| && j != i ==> KeyOf(list[j].description) != key
    ensures Find(after, key) == None
  {
    hide KeyOf, Position;
  }

  lemma Others(list: seq<Attribute>, i: nat)
    requires Distinct(list) && i < |list|
    ensures forall j :: 0 <= j < |list| && j != i ==> KeyOf(list[j].description) != KeyOf(list[i].description)
  {
    hide KeyOf;
  }

  lemma ShiftDown(list: seq<Attribute>, i: nat)
    requires Distinct(list) && i < |list|
    ensures var after := list[..i] + list[i + 1..];
            && (forall x :: 0 <= x < |after| ==> after[x] == list[if x < i then x else x + 1])
            && Distinct(after)
  {
    hide KeyOf;
  }

  // ------------------------------------------------------------------ the collection

  // The index has exactly the keys of the stored attributes, at their places.
  ghost predicate Indexed(ordered: seq<Attribute>, index: map<bytes, nat>)
  {
    && (forall i :: 0 <= i < |ordered| ==> KeyOf(ordered[i].description) in index && index[KeyOf(ordered[i].description)] == i)
    && (forall k :: k in index ==> index[k] < |ordered| && KeyOf(ordered[index[k]].description) == k)
  }

  // Removing position i, and moving every later index entry down by one.
  lemma RemoveIndexed(ordered: seq<Attribute>, index: map<bytes, nat>, i: nat, index': map<bytes, nat>)
    requires Indexed(ordered, index) && i < |ordered|
    requires index'.Keys == index.Keys - {KeyOf(ordered[i].description)}
    requires forall k :: k in index' ==> index'[k] == if index[k] > i then index[k] - 1 else index[k]
    ensures Indexed(ordered[..i] + ordered[i + 1..], index')
  {
    hide KeyOf;
    var after := ordered[..i] + ordered[i + 1..];
    forall x | 0 <= x < |after| ensures KeyOf(after[x].description) in index' && index'[KeyOf(after[x].description)] == x {
      assert after[x] == ordered[if x < i then x else x + 1];
    }
    forall k | k in index' ensures index'[k] < |after| && KeyOf(after[index'[k]].description) == k {
      assert index[k] != i && after[index'[k]] == ordered[index[k]];
    }
  }

  class Collection {
    var ordered: seq<Attribute>
    var index: map<bytes, nat>

    ghost predicate Valid()
      reads this
    {
      Indexed(ordered, index)
    }

    lemma ValidDistinct()
      requires Valid()
      ensures Distinct(ordered)
    {
      hide KeyOf;
    }

    constructor ()
      ensures Valid() && ordered == []
    {
      ordered, index := [], map[];
    }

    // Lookup
    method Lookup(name: bytes) returns (r: Option<Attribute>)
      requires Valid()
      ensures r == Find(ordered, KeyOf(name))
    {
      hide KeyOf, Position;
      ValidDistinct();
      var key := Key(name);
      if key !in index {
        return None;
      }
      PositionIs(ordered, key, index[key]);
      return Some(ordered[index[key]]);
    }

    // set: whether it replaced an attribute
    method SetKeyed(key: bytes, a: Attribute) returns (replaced: bool)
      requires Valid() && key == KeyOf(a.description)
      modifies this
      ensures Valid() && ordered == Put(old(ordered), a)
      ensures replaced <==> Find(old(ordered), key).Some?
    {
      hide KeyOf, Position;
      ValidDistinct();
      if key in index {
        PositionIs(ordered, key, index[key]);
        ordered := ordered[index[key] := a];
        return true;
      }
      index := index[key := |ordered|];
      ordered := ordered + [a];
      return false;
    }

    method Set(a: Attribute)
      requires Valid()
      modifies this
      ensures Valid() && ordered == Put(old(ordered), a)
    {
      var key := Key(a.description);
      var _ := SetKeyed(key, a);
    }

    /** Deletes by key and moves every later index entry down by one. */
    method Delete(name: bytes) returns (removed: bool)
      requires Valid()
      modifies this
      ensures Valid() && ordered == Without(old(ordered), KeyOf(name))
      ensures removed <==> Find(old(ordered), KeyOf(name)).Some?
    {
      hide KeyOf, Position;
      ValidDistinct();
      var key := Key(name);
      if key !in index {
        return false;
      }
      var i := index[key];
      PositionIs(ordered, key, i);
      hide Indexed;
      index := index - {key};
      MoveDown(i);
      RemoveIndexed(ordered, old(index), i, index);
      ordered := ordered[..i] + ordered[i + 1..];
      return true;
    }

    // The loop over the index that closes the gap at i.
    method MoveDown(i: nat)
      modifies `index
      ensures index.Keys == old(index).Keys
      ensures forall k :: k in index ==> index[k] == if old(index)[k] > i then old(index)[k] - 1 else old(index)[k]
    {
      ghost var was := index;
      var todo := index.Keys;
      while todo != {}
        invariant todo <= index.Keys == was.Keys
        invariant forall k :: k in was ==> index[k] == if k !in todo && was[k] > i then was[k] - 1 else was[k]
        decreases |todo|
      {
        var existing :| existing in todo;
        todo := todo - {existing};
        if index[existing] > i {
          index := index[existing := index[existing] - 1];
        }
      }
    }

    // NewAttributes
    static method Build(attributes: seq<Attribute>) returns (c: Collection)
      ensures fresh(c) && c.Valid() && c.ordered == PutAll([], attributes)
    {
      hide KeyOf, Position, Put, Indexed;
      c := new Collection();
      for i := 0 to |attributes|
        invariant fresh(c) && c.Valid() && c.ordered == PutAll([], attributes[..i])
      {
        c.Set(attributes[i]);
        assert attributes[..i + 1][..i] == attributes[..i];
      }
      assert attributes[..|attributes|] == attributes;
    }

    /** A clone is a collection of its own with the same attributes in order. */
    method Clone() returns (c: Collection)
      requires Valid()
      ensures fresh(c) && c.Valid() && c.ordered == ordered
    {
      ValidDistinct();
      PutAllDistinct(ordered);
      c := Build(ordered);
    }

    /** UnmarshalBER, for the attributes as they arrive and for whether the reader fails
        after them: it fails exactly when it does or two have the same key, leaving the
        collection as it was, and else holds them in order. */
    method Decode(attributes: seq<Attribute>, malformed: bool) returns (ok: bool)
      modifies this
      ensures ok <==> !malformed && Distinct(attributes)
      ensures if ok then Valid() && ordered == attributes else ordered == old(ordered) && index == old(index)
    {
      hide KeyOf, Position;
      var decoded := new Collection();
      for i := 0 to |attributes|
        invariant fresh(decoded) && decoded.Valid() && decoded.ordered == attributes[..i] && Distinct(attributes[..i])
        invariant ordered == old(ordered) && index == old(index)
      {
        var key := Key(attributes[i].description);
        var duplicate := decoded.SetKeyed(key, attributes[i]);
        if duplicate {
          Repeated(attributes, i);
          return false;
        }
        assert attributes[..i + 1] == attributes[..i] + [attributes[i]] == decoded.ordered;
        decoded.ValidDistinct();
      }
      assert attributes[..|attributes|] == attributes;
      if malformed {
        return false;
      }
      ordered, index := decoded.ordered, decoded.index;
      return true;
    }
  }

  lemma Repeated(list: seq<Attribute>, i: nat)
    requires i < |list| && Find(list[..i], KeyOf(list[i].description)).Some?
    ensures !Distinct(list)
  {
    hide KeyOf, Position;
    var k := Position(list[..i], KeyOf(list[i].description));
    assert KeyOf(list[k].description) == KeyOf(list[i].description);
  }

  function PutAll(list: seq<Attribute>, more: seq<Attribute>): seq<Attribute>
  {
    if more == [] then list else Put(PutAll(list, more[..|more| - 1]), more[|more| - 1])
  }

  lemma NotInFront(list: seq<Attribute>)
    requires list != [] && Distinct(list)
    ensures Position(list[..|list| - 1], KeyOf(list[|list| - 1].description)) == |list| - 1
  {
    hide KeyOf, Position;
  }

  lemma FrontDistinct(list: seq<Attribute>)
    requires list != [] && Distinct(list)
    ensures Distinct(list[..|list| - 1])
  {
    hide KeyOf;
  }

  lemma {:induction false} PutAllDistinct(list: seq<Attribute>)
    requires Distinct(list)
    ensures PutAll([], list) == list
    decreases |list|
  {
    hide KeyOf, Position, Distinct;
    if list != [] {
      var front, last := list[..|list| - 1], list[|list| - 1];
      FrontDistinct(list);
      PutAllDistinct(front);
      NotInFront(list);
      assert list == front + [last];
    }
  }
}
