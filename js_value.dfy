/**
 * The JavaScript values that the demo screen keeps in its component state:
 * the streaming configuration tree, the patches merged into it, and the
 * property lookups, property writes and dot-path reads done on them.
 *
 * A plain object is an ordered list of members, in the order the properties
 * were created. JavaScript lists integer-like keys such as "1" first, in
 * ascending numeric order; the model does not single them out.
 */
module JsValue {
  import opened Wrappers

  datatype Value =
    | Undefined
    | Null
    | Bool(b: bool)
    | Num(n: int)
    | Str(s: string)
      /**
       * A leaf the model never inspects (a fractional volume, a `consts.*`
       * entry of the SDK); equal tags stand for equal values.
       */
    | Abstract(tag: nat)
    | Arr(items: seq<Value>)
    | Obj(members: seq<Member>)

  datatype Member = Member(key: string, value: Value)

  /** The property names of an object, in order. */
  function Keys(ms: seq<Member>): (ks: seq<string>)
    ensures |ks| == |ms|
    ensures forall i :: 0 <= i < |ms| ==> ks[i] == ms[i].key
  {
    seq(|ms|, i requires 0 <= i < |ms| => ms[i].key)
  }

  /** No property name occurs twice, as in every JavaScript object. */
  predicate DistinctKeys(ms: seq<Member>)
  {
    forall i, j :: 0 <= i < j < |ms| ==> ms[i].key != ms[j].key
  }

  /** Every object inside `v` has distinct property names. */
  predicate WellFormed(v: Value)
  {
    match v
    case Obj(ms) => DistinctKeys(ms) && forall i :: 0 <= i < |ms| ==> WellFormed(ms[i].value)
    case Arr(items) => forall i :: 0 <= i < |items| ==> WellFormed(items[i])
    case _ => true
  }

  /** The position of the first member named `k` at or after position `from`, if there is one. */
  function IndexFrom(ms: seq<Member>, k: string, from: nat): (r: Option<nat>)
    requires from <= |ms|
    ensures r.Some? ==> from <= r.value < |ms| && ms[r.value].key == k
    ensures r.Some? ==> forall j :: from <= j < r.value ==> ms[j].key != k
    ensures r.None? ==> forall j :: from <= j < |ms| ==> ms[j].key != k
    decreases |ms| - from
  {
    if from == |ms| then None
    else if ms[from].key == k then Some(from)
    else IndexFrom(ms, k, from + 1)
  }

  /** The position of the first member named `k`, if there is one. */
  function IndexOf(ms: seq<Member>, k: string): (r: Option<nat>)
    ensures r.Some? ==> r.value < |ms| && ms[r.value].key == k
    ensures r.Some? ==> forall j :: 0 <= j < r.value ==> ms[j].key != k
    ensures r.None? ==> forall j :: 0 <= j < |ms| ==> ms[j].key != k
  {
    IndexFrom(ms, k, 0)
  }

  /** The first member named `k` is the head, or the first one named `k` in the tail. */
  lemma IndexOfCons(ms: seq<Member>, k: string)
    requires ms != []
    ensures IndexOf(ms, k) ==
      if ms[0].key == k then Some(0)
      else match IndexOf(ms[1..], k) case None => None case Some(j) => Some(j + 1)
  {
    if ms[0].key != k {
      match IndexOf(ms[1..], k)
      case None =>
        assert forall j :: 0 < j < |ms| ==> ms[j] == ms[1..][j - 1];
      case Some(t) =>
        assert ms[t + 1] == ms[1..][t];
        assert forall j :: 0 < j < t + 1 ==> ms[j] == ms[1..][j - 1];
    }
  }

  predicate Has(ms: seq<Member>, k: string)
  {
    IndexOf(ms, k).Some?
  }

  /** The value of own property `k`, or `None` when the object has no such property. */
  function Lookup(ms: seq<Member>, k: string): Option<Value>
  {
    match IndexOf(ms, k)
    case None => None
    case Some(j) => Some(ms[j].value)
  }

  /** A lookup checks the first member, then the rest. */
  lemma LookupCons(ms: seq<Member>, k: string)
    requires ms != []
    ensures Lookup(ms, k) == if ms[0].key == k then Some(ms[0].value) else Lookup(ms[1..], k)
  {
    IndexOfCons(ms, k);
  }

  /** A one-member object holds its member. */
  lemma LookupSingle(k: string, v: Value)
    ensures Lookup([Member(k, v)], k) == Some(v)
  {
  }

  /**
   * `obj[k] = v` on a plain object: an existing property keeps its place and
   * gets the new value, a new one is appended after the others.
   */
  function Assign(ms: seq<Member>, k: string, v: Value): (r: seq<Member>)
    ensures |r| == if Has(ms, k) then |ms| else |ms| + 1
    ensures forall i :: 0 <= i < |ms| ==> r[i].key == ms[i].key
    ensures !Has(ms, k) ==> r[|ms|] == Member(k, v)
  {
    if ms == [] then [Member(k, v)]
    else if ms[0].key == k then [Member(k, v)] + ms[1..]
    else
      IndexOfCons(ms, k);
      [ms[0]] + Assign(ms[1..], k, v)
  }

  /** `obj[k]` on a value that can be indexed without throwing. */
  function Prop(v: Value, k: string): Value
  {
    if v.Obj? then
      match Lookup(v.members, k)
      case None => Undefined
      case Some(x) => x
    else Undefined
  }

  /** One lookup of the fold in a dot-path read: `undefined[k]` and `null[k]` throw a TypeError (`None`). */
  function Step(v: Value, k: string): (r: Option<Value>)
    ensures r.None? <==> v.Undefined? || v.Null?
    ensures r.Some? && !(v.Obj? && Has(v.members, k)) ==> r.value == Undefined
  {
    if v.Undefined? || v.Null? then None else Some(Prop(v, k))
  }

  /** `keys.reduce((obj, key) => obj[key], root)`; `None` when a lookup throws. */
  function Read(root: Value, path: seq<string>): (r: Option<Value>)
    ensures r.Some? ==> r.value == PathValue(root, path)
    decreases path
  {
    if path == [] then Some(root)
    else match Step(root, path[0])
      case None => None
      case Some(next) => Read(next, path[1..])
  }

  /** The value found at `path` when every node on the way is looked up with `Prop`. */
  function PathValue(root: Value, path: seq<string>): Value
    decreases path
  {
    if path == [] then root else PathValue(Prop(root, path[0]), path[1..])
  }

  /** The chain of single-property objects `{p0: {p1: ... inner}}` along `path`. */
  function Nest(path: seq<string>, inner: Value): (r: Value)
    ensures Read(r, path) == Some(inner)
  {
    if path == [] then inner
    else
      var child := Nest(path[1..], inner);
      LookupSingle(path[0], child);
      Obj([Member(path[0], child)])
  }

  /**
   * `node[k] = v`, where `node` is the object reached from `root` by following
   * the properties in `path`; this is how a reference into a tree is modelled.
   * A write that would not reach an object leaves `root` as it is.
   */
  function SetIn(root: Value, path: seq<string>, k: string, v: Value): (r: Value)
    ensures Read(root, path).Some? && Read(root, path).value.Obj? ==> Read(r, path + [k]) == Some(v)
  {
    if !root.Obj? then
      NonObjectReads(root, path);
      root
    else if path == [] then
      var ms := Assign(root.members, k, v);
      LookupAssign(root.members, k, v, k);
      assert path + [k] == [k] && [k][1..] == [];
      Obj(ms)
    else match Lookup(root.members, path[0])
      case None =>
        UndefinedReads(path[1..]);
        root
      case Some(child) =>
        var written := SetIn(child, path[1..], k, v);
        LookupAssign(root.members, path[0], written, path[0]);
        assert (path + [k])[0] == path[0] && (path + [k])[1..] == path[1..] + [k];
        Obj(Assign(root.members, path[0], written))
  }

  // ---------------------------------------------------------------------------
  // Lemmas about property access

  lemma {:induction false} LookupAssign(ms: seq<Member>, k: string, v: Value, k': string)
    ensures Lookup(Assign(ms, k, v), k') == if k' == k then Some(v) else Lookup(ms, k')
  {
    var r := Assign(ms, k, v);
    LookupCons(r, k');
    if ms == [] {
      assert r[1..] == [];
    } else if ms[0].key == k {
      assert r[0].key == k && r[1..] == ms[1..];
      LookupCons(ms, k');
    } else {
      assert r[0] == ms[0] && r[1..] == Assign(ms[1..], k, v);
      LookupAssign(ms[1..], k, v, k');
      LookupCons(ms, k');
    }
  }


  lemma PropAssign(ms: seq<Member>, k: string, v: Value, k': string)
    ensures Prop(Obj(Assign(ms, k, v)), k') == if k' == k then v else Prop(Obj(ms), k')
  {
    LookupAssign(ms, k, v, k');
  }

  /** In an object with distinct names, the member at position `i` is what a lookup of its name finds. */
  lemma LookupAt(ms: seq<Member>, i: nat)
    requires DistinctKeys(ms) && i < |ms|
    ensures Lookup(ms, ms[i].key) == Some(ms[i].value)
  {
  }

  /** A lookup finds the first member with the name, wherever equal names come later. */
  lemma LookupFirst(ms: seq<Member>, i: nat, k: string)
    requires i < |ms| && ms[i].key == k
    requires forall j :: 0 <= j < i ==> ms[j].key != k
    ensures Lookup(ms, k) == Some(ms[i].value)
  {
  }

  /** A lookup in a concatenation finds the first part's property before the second's. */
  lemma {:induction false} LookupConcat(xs: seq<Member>, ys: seq<Member>, k: string)
    ensures Lookup(xs + ys, k) == if Has(xs, k) then Lookup(xs, k) else Lookup(ys, k)
  {
    if xs != [] {
      assert (xs + ys)[0] == xs[0] && (xs + ys)[1..] == xs[1..] + ys;
      LookupConcat(xs[1..], ys, k);
      IndexOfCons(xs + ys, k);
      IndexOfCons(xs, k);
    } else {
      assert xs + ys == ys;
    }
  }

  /** Assigning a property the object does not have appends it. */
  lemma {:induction false} AssignAppends(ms: seq<Member>, k: string, v: Value)
    requires !Has(ms, k)
    ensures Assign(ms, k, v) == ms + [Member(k, v)]
  {
    if ms != [] {
      IndexOfCons(ms, k);
      AssignAppends(ms[1..], k, v);
    }
  }

  lemma {:induction false} AssignDistinct(ms: seq<Member>, k: string, v: Value)
    requires DistinctKeys(ms)
    ensures DistinctKeys(Assign(ms, k, v))
  {
    if ms != [] && ms[0].key != k {
      var rest := Assign(ms[1..], k, v);
      AssignDistinct(ms[1..], k, v);
      LookupAssign(ms[1..], k, v, ms[0].key);
      assert !Has(ms[1..], ms[0].key);
      assert !Has(rest, ms[0].key);
      assert Assign(ms, k, v) == [ms[0]] + rest;
    }
  }

  /** Writing a well-formed value into a well-formed object keeps it a well-formed object. */
  lemma AssignWellFormed(ms: seq<Member>, k: string, v: Value)
    requires WellFormed(Obj(ms)) && WellFormed(v)
    ensures WellFormed(Obj(Assign(ms, k, v)))
  {
    AssignDistinct(ms, k, v);
    AssignValues(ms, k, v);
  }

  lemma {:induction false} AssignValues(ms: seq<Member>, k: string, v: Value)
    requires forall i :: 0 <= i < |ms| ==> WellFormed(ms[i].value)
    requires WellFormed(v)
    ensures forall i :: 0 <= i < |Assign(ms, k, v)| ==> WellFormed(Assign(ms, k, v)[i].value)
  {
    if ms != [] {
      var r := Assign(ms, k, v);
      if ms[0].key == k {
        assert forall i :: 1 <= i < |r| ==> r[i] == ms[i];
      } else {
        var rest := Assign(ms[1..], k, v);
        AssignValues(ms[1..], k, v);
        assert r == [ms[0]] + rest;
        assert forall i :: 1 <= i < |r| ==> r[i] == rest[i - 1];
      }
    }
  }

  /** A property of a well-formed value is well formed. */
  lemma PropWellFormed(v: Value, k: string)
    requires WellFormed(v)
    ensures WellFormed(Prop(v, k))
  {
  }

  /** Reading along a path through an object only ever looks at its child on that path. */
  lemma ReadObj(ms: seq<Member>, k: string, rest: seq<string>)
    ensures Read(Obj(ms), [k] + rest) == Read(Prop(Obj(ms), k), rest)
  {
    assert ([k] + rest)[1..] == rest;
  }

  /** With distinct names, reading through the member at position `i` continues in its value. */
  lemma ReadMember(ms: seq<Member>, i: nat, rest: seq<string>)
    requires DistinctKeys(ms) && i < |ms|
    ensures Read(Obj(ms), [ms[i].key] + rest) == Read(ms[i].value, rest)
  {
    LookupAt(ms, i);
    ReadObj(ms, ms[i].key, rest);
  }

  /** A read that reaches an object went through objects only. */
  lemma {:induction false} ReadObjPrefix(root: Value, path: seq<string>, j: nat)
    requires j <= |path|
    requires Read(root, path).Some? && Read(root, path).value.Obj?
    ensures Read(root, path[..j]).Some? && Read(root, path[..j]).value.Obj?
  {
    if path != [] {
      UndefinedReads(path[1..]);
      assert root.Obj?;
      if j > 0 {
        ReadObjPrefix(Prop(root, path[0]), path[1..], j - 1);
        assert path[..j][1..] == path[1..][..j - 1];
      } else {
        assert path[..j] == [];
      }
    }
  }

  /** A read that starts at a value other than an object never reaches an object. */
  lemma NonObjectReads(root: Value, path: seq<string>)
    requires !root.Obj?
    ensures !(Read(root, path).Some? && Read(root, path).value.Obj?)
  {
    if path != [] {
      UndefinedReads(path[1..]);
    }
  }

  /** Reading anything below `undefined` either is `undefined` itself or throws. */
  lemma UndefinedReads(path: seq<string>)
    ensures Read(Undefined, path) == if path == [] then Some(Undefined) else None
  {
  }

  lemma {:induction false} PathValueUndefined(path: seq<string>)
    ensures PathValue(Undefined, path) == Undefined
  {
    if path != [] {
      PathValueUndefined(path[1..]);
    }
  }

  /** A lookup of the fold that does not throw: the value is neither `undefined` nor `null`. */
  predicate Indexable(o: Option<Value>)
  {
    o.Some? && !o.value.Undefined? && !o.value.Null?
  }

  /** The fold of lookups, seen from its last step. */
  lemma {:induction false} ReadSnoc(root: Value, path: seq<string>, k: string)
    ensures Read(root, path + [k]) == match Read(root, path) case None => None case Some(x) => Step(x, k)
    decreases path
  {
    if path == [] {
      assert path + [k] == [k] && [k][1..] == [];
    } else {
      assert (path + [k])[0] == path[0] && (path + [k])[1..] == path[1..] + [k];
      match Step(root, path[0])
      case None =>
      case Some(next) => ReadSnoc(next, path[1..], k);
    }
  }

  /**
   * A dot-path read throws exactly when one of the values it indexes on the
   * way, the root included, is `undefined` or `null`.
   */
  lemma {:induction false} ReadDefined(root: Value, path: seq<string>)
    ensures Read(root, path).Some? <==> forall j :: 0 <= j < |path| ==> Indexable(Read(root, path[..j]))
    decreases |path|
  {
    if path != [] {
      var p := path[..|path| - 1];
      var k := path[|path| - 1];
      assert path == p + [k];
      ReadSnoc(root, p, k);
      ReadDefined(root, p);
      assert forall j :: 0 <= j < |p| ==> path[..j] == p[..j];
      assert path[..|p|] == p;
    }
  }

  /** A read whose last key is missing from an object it reached finds `undefined`. */
  lemma ReadMissingLast(root: Value, path: seq<string>, k: string)
    requires Read(root, path).Some? && Read(root, path).value.Obj?
    requires !Has(Read(root, path).value.members, k)
    ensures Read(root, path + [k]) == Some(Undefined)
  {
    ReadSnoc(root, path, k);
  }

  // ---------------------------------------------------------------------------
  // Lemmas about nested single-property chains

  /** Appending a segment to a chain is the same as nesting the wrapped value one level deeper. */
  lemma {:induction false} NestSnoc(path: seq<string>, k: string, v: Value)
    ensures Nest(path, Obj([Member(k, v)])) == Nest(path + [k], v)
  {
    if path != [] {
      assert (path + [k])[0] == path[0];
      assert (path + [k])[1..] == path[1..] + [k];
      NestSnoc(path[1..], k, v);
    } else {
      assert ([] + [k])[1..] == path;
    }
  }

  /** Reading a chain along a prefix of its own path gives the rest of the chain. */
  lemma {:induction false} NestReadPrefix(path: seq<string>, inner: Value, j: nat)
    requires j <= |path|
    ensures Read(Nest(path, inner), path[..j]) == Some(Nest(path[j..], inner))
  {
    if j == 0 {
      assert path[j..] == path;
    } else {
      NestReadPrefix(path[1..], inner, j - 1);
      assert path[..j] == [path[0]] + path[1..][..j - 1];
      assert path[1..][j - 1..] == path[j..];
      ReadObj([Member(path[0], Nest(path[1..], inner))], path[0], path[1..][..j - 1]);
    }
  }

  /**
   * A chain along `path` is an object at every proper prefix of `path`, holding
   * exactly one property, the next segment; at `path` itself it holds `inner`.
   */
  lemma NestChain(path: seq<string>, inner: Value, j: nat)
    requires j <= |path|
    ensures j < |path| ==> Read(Nest(path, inner), path[..j]) == Some(Obj([Member(path[j], Nest(path[j + 1..], inner))]))
    ensures j == |path| ==> Read(Nest(path, inner), path) == Some(inner)
  {
    NestReadPrefix(path, inner, j);
    if j < |path| {
      assert path[j..][1..] == path[j + 1..];
    } else {
      assert path[..j] == path;
      assert path[j..] == [];
    }
  }

  /**
   * A chain holds nothing off its path: a read that leaves the path at
   * segment `i` finds `undefined` there and throws one level below.
   */
  lemma {:induction false} NestOffPath(path: seq<string>, inner: Value, q: seq<string>, i: nat)
    requires i < |path| && i < |q|
    requires q[..i] == path[..i] && q[i] != path[i]
    ensures Read(Nest(path, inner), q) == if |q| == i + 1 then Some(Undefined) else None
  {
    var node := Obj([Member(path[0], Nest(path[1..], inner))]);
    assert q == [q[0]] + q[1..];
    ReadObj(node.members, q[0], q[1..]);
    if i == 0 {
      UndefinedReads(q[1..]);
    } else {
      assert q[0] == path[0] by { assert q[..i][0] == path[..i][0]; }
      assert q[1..][..i - 1] == path[1..][..i - 1];
      NestOffPath(path[1..], inner, q[1..], i - 1);
    }
  }

  /** Writing through the reference to the innermost node of a chain changes only that node. */
  lemma {:induction false} SetInNest(path: seq<string>, ms: seq<Member>, k: string, v: Value)
    ensures SetIn(Nest(path, Obj(ms)), path, k, v) == Nest(path, Obj(Assign(ms, k, v)))
  {
    if path != [] {
      SetInNest(path[1..], ms, k, v);
    }
  }

  lemma {:induction false} NestWellFormed(path: seq<string>, inner: Value)
    requires WellFormed(inner)
    ensures WellFormed(Nest(path, inner))
  {
    if path != [] {
      NestWellFormed(path[1..], inner);
    }
  }
}
