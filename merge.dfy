/**
 * The recursive merge that the demo takes from the `merge` package, called
 * as `merge.recursive(true, base, patch)` (demo/App.js:124 and 142).
 *
 * The package's own code is not modelled. What is modelled is the behaviour
 * the screen relies on, stated here as an assumption: the call works on a
 * clone (the `true` argument), so neither argument is changed; it starts from
 * a fresh empty object and absorbs every argument that is a plain object; and
 * absorbing is a right-biased recursive union: where both sides hold a plain
 * object the two are merged member by member, anywhere else the patch's value
 * replaces the base's. Members keep the base's order and new members from the
 * patch are appended in the patch's order (the order of creation; integer-like
 * keys, which JavaScript lists first, are not singled out).
 */
module Merge {
  import opened Wrappers
  import opened JsValue

  /** The right-biased recursive union of `base` and `patch`. */
  function DeepMerge(base: Value, patch: Value): (r: Value)
    ensures !patch.Obj? ==> r == patch
    ensures base.Obj? && patch.Obj? ==>
      r.Obj? && |r.members| >= |base.members| &&
      forall i :: 0 <= i < |base.members| ==> r.members[i].key == base.members[i].key
    decreases patch, 1
  {
    if base.Obj? && patch.Obj? then
      Obj(MergeMembers(base.members, patch) + NewMembers(patch.members, base.members))
    else patch
  }

  /** The base's members, in order, each merged with the patch's member of the same name if there is one. */
  function MergeMembers(bms: seq<Member>, patch: Value): (r: seq<Member>)
    requires patch.Obj?
    ensures |r| == |bms|
    ensures forall i :: 0 <= i < |bms| ==> r[i].key == bms[i].key
    decreases patch, 0, |bms|
  {
    if bms == [] then []
    else
      var m := bms[0];
      var merged := match IndexOf(patch.members, m.key)
        case None => m
        case Some(j) => Member(m.key, DeepMerge(m.value, patch.members[j].value));
      [merged] + MergeMembers(bms[1..], patch)
  }

  /** The patch's members whose names the base does not have, in the patch's order. */
  function NewMembers(pms: seq<Member>, bms: seq<Member>): seq<Member>
  {
    if pms == [] then []
    else (if Has(bms, pms[0].key) then [] else [pms[0]]) + NewMembers(pms[1..], bms)
  }

  /** One argument of `merge.recursive`: plain objects are merged in, anything else is skipped. */
  function Absorb(acc: Value, item: Value): Value
  {
    if item.Obj? then DeepMerge(acc, item) else acc
  }

  /** `merge.recursive(true, base, patch)`: always a fresh plain object. */
  function MergeRecursive(base: Value, patch: Value): (r: Value)
    ensures r.Obj?
  {
    Absorb(Absorb(Obj([]), base), patch)
  }

  // ---------------------------------------------------------------------------
  // What a merged object holds

  lemma {:induction false} LookupMergeMembers(bms: seq<Member>, patch: Value, k: string)
    requires patch.Obj?
    ensures Lookup(MergeMembers(bms, patch), k) ==
      match Lookup(bms, k)
      case None => None
      case Some(x) => Some(match Lookup(patch.members, k) case None => x case Some(y) => DeepMerge(x, y))
  {
    if bms != [] {
      var r := MergeMembers(bms, patch);
      assert r[0].key == bms[0].key && r[1..] == MergeMembers(bms[1..], patch);
      LookupMergeMembers(bms[1..], patch, k);
      IndexOfCons(r, k);
      IndexOfCons(bms, k);
    }
  }

  lemma {:induction false} LookupNewMembers(pms: seq<Member>, bms: seq<Member>, k: string)
    ensures Lookup(NewMembers(pms, bms), k) == if Has(bms, k) then None else Lookup(pms, k)
  {
    if pms != [] {
      LookupNewMembers(pms[1..], bms, k);
      var head := if Has(bms, pms[0].key) then [] else [pms[0]];
      LookupConcat(head, NewMembers(pms[1..], bms), k);
    }
  }

  /**
   * A property of a merge of two objects: the patch's value merged into the
   * base's where the patch has the property, the base's value where it does not.
   */
  lemma MergeProp(base: Value, patch: Value, k: string)
    requires base.Obj? && patch.Obj?
    ensures Prop(DeepMerge(base, patch), k) ==
      match Lookup(patch.members, k)
      case None => Prop(base, k)
      case Some(y) => DeepMerge(Prop(base, k), y)
  {
    LookupConcat(MergeMembers(base.members, patch), NewMembers(patch.members, base.members), k);
    LookupMergeMembers(base.members, patch, k);
    LookupNewMembers(patch.members, base.members, k);
  }

  /** A merge of two objects has exactly the properties of either. */
  lemma MergeHas(base: Value, patch: Value, k: string)
    requires base.Obj? && patch.Obj?
    ensures Has(DeepMerge(base, patch).members, k) <==> Has(base.members, k) || Has(patch.members, k)
  {
    LookupConcat(MergeMembers(base.members, patch), NewMembers(patch.members, base.members), k);
    LookupMergeMembers(base.members, patch, k);
    LookupNewMembers(patch.members, base.members, k);
  }

  // ---------------------------------------------------------------------------
  // Merging a single-path patch

  /**
   * Reading a merge with the chain `Nest(path, v)` along a prefix of `path`:
   * what the base held there (through objects), merged with the rest of the chain.
   */
  lemma {:induction false} MergeNestRead(base: Value, path: seq<string>, v: Value, j: nat)
    requires j <= |path|
    ensures Read(DeepMerge(base, Nest(path, v)), path[..j]) ==
            Some(DeepMerge(PathValue(base, path[..j]), Nest(path[j..], v)))
    decreases j
  {
    if j == 0 {
      assert path[..j] == [] && path[j..] == path;
    } else {
      var patch := Nest(path, v);
      var rest := path[1..][..j - 1];
      assert path[..j] == [path[0]] + rest;
      assert path[1..][j - 1..] == path[j..];
      assert Lookup(patch.members, path[0]) == Some(Nest(path[1..], v));
      if base.Obj? {
        var merged := DeepMerge(base, patch);
        ReadObj(merged.members, path[0], rest);
        MergeProp(base, patch, path[0]);
        MergeNestRead(Prop(base, path[0]), path[1..], v, j - 1);
      } else {
        NestReadPrefix(path, v, j);
        PathValueUndefined(rest);
      }
    }
  }

  /**
   * Read after write: a merge with `Nest(path, v)` holds at `path` the base's
   * value there merged with `v`, which is `v` itself unless both are objects.
   */
  lemma MergeReadBack(base: Value, path: seq<string>, v: Value)
    ensures Read(DeepMerge(base, Nest(path, v)), path) == Some(DeepMerge(PathValue(base, path), v))
    ensures !v.Obj? ==> Read(DeepMerge(base, Nest(path, v)), path) == Some(v)
  {
    MergeNestRead(base, path, v, |path|);
    assert path[..|path|] == path && path[|path|..] == [];
  }

  /**
   * A merge with `Nest(path, v)` leaves alone every path that leaves `path` at
   * segment `i` below an object: siblings at every depth read as before.
   */
  lemma {:induction false} MergeKeepsSiblings(base: Value, path: seq<string>, v: Value, other: seq<string>, i: nat)
    requires i < |path| && i < |other|
    requires other[..i] == path[..i] && other[i] != path[i]
    requires Read(base, path[..i]).Some? && Read(base, path[..i]).value.Obj?
    ensures Read(DeepMerge(base, Nest(path, v)), other) == Read(base, other)
  {
    ReadObjPrefix(base, path[..i], 0);
    assert path[..i][..0] == [];
    var patch := Nest(path, v);
    var merged := DeepMerge(base, patch);
    assert other == [other[0]] + other[1..];
    ReadObj(merged.members, other[0], other[1..]);
    ReadObj(base.members, other[0], other[1..]);
    MergeProp(base, patch, other[0]);
    if i == 0 {
      assert Lookup(patch.members, other[0]) == None;
    } else {
      assert other[0] == path[0] by { assert other[..i][0] == path[..i][0]; }
      assert Lookup(patch.members, path[0]) == Some(Nest(path[1..], v));
      assert path[..i] == [path[0]] + path[1..][..i - 1];
      ReadObj(base.members, path[0], path[1..][..i - 1]);
      assert other[1..][..i - 1] == path[1..][..i - 1];
      MergeKeepsSiblings(Prop(base, path[0]), path[1..], v, other[1..], i - 1);
    }
  }

  // ---------------------------------------------------------------------------
  // Idempotence

  lemma {:induction false} MergeMembersConcat(xs: seq<Member>, ys: seq<Member>, patch: Value)
    requires patch.Obj?
    ensures MergeMembers(xs + ys, patch) == MergeMembers(xs, patch) + MergeMembers(ys, patch)
  {
    if xs == [] {
      assert xs + ys == ys;
    } else {
      assert (xs + ys)[0] == xs[0] && (xs + ys)[1..] == xs[1..] + ys;
      MergeMembersConcat(xs[1..], ys, patch);
    }
  }

  /** Members that already carry the patch's own values are left as they are by a merge with it. */
  lemma {:induction false} MergeMembersFixed(xs: seq<Member>, patch: Value)
    requires patch.Obj? && WellFormed(patch)
    requires forall i :: 0 <= i < |xs| ==> Lookup(patch.members, xs[i].key) == Some(xs[i].value)
    ensures MergeMembers(xs, patch) == xs
    decreases patch, 0, |xs|
  {
    if xs != [] {
      var j := IndexOf(patch.members, xs[0].key).value;
      assert patch.members[j].value == xs[0].value;
      SelfMerge(patch.members[j].value);
      MergeMembersFixed(xs[1..], patch);
    }
  }

  /** A well-formed value merged with itself is itself. */
  lemma {:induction false} SelfMerge(v: Value)
    requires WellFormed(v)
    ensures DeepMerge(v, v) == v
    decreases v, 1
  {
    if v.Obj? {
      forall i | 0 <= i < |v.members|
        ensures Lookup(v.members, v.members[i].key) == Some(v.members[i].value)
      {
        LookupAt(v.members, i);
      }
      MergeMembersFixed(v.members, v);
      NewMembersCovered(v.members, v.members);
    }
  }

  /** A merge adds nothing new from a patch whose names the base already has. */
  lemma {:induction false} NewMembersCovered(pms: seq<Member>, bms: seq<Member>)
    requires forall i :: 0 <= i < |pms| ==> Has(bms, pms[i].key)
    ensures NewMembers(pms, bms) == []
  {
    if pms != [] {
      NewMembersCovered(pms[1..], bms);
    }
  }

  /** Merging into an empty object copies the patch. */
  lemma {:induction false} NewMembersOfEmpty(pms: seq<Member>)
    ensures NewMembers(pms, []) == pms
  {
    if pms != [] {
      NewMembersOfEmpty(pms[1..]);
    }
  }

  /** The new members of a merge each carry what the patch holds under their name. */
  lemma {:induction false} NewMembersFromPatch(pms: seq<Member>, bms: seq<Member>, source: seq<Member>)
    requires forall j :: 0 <= j < |pms| ==> Lookup(source, pms[j].key) == Some(pms[j].value)
    ensures forall i :: 0 <= i < |NewMembers(pms, bms)| ==>
              Lookup(source, NewMembers(pms, bms)[i].key) == Some(NewMembers(pms, bms)[i].value)
  {
    if pms != [] {
      NewMembersFromPatch(pms[1..], bms, source);
      var head := if Has(bms, pms[0].key) then [] else [pms[0]];
      assert NewMembers(pms, bms) == head + NewMembers(pms[1..], bms);
    }
  }

  /** Merging the base's members with the patch a second time changes nothing more. */
  lemma {:induction false} MergeMembersTwice(bms: seq<Member>, patch: Value)
    requires patch.Obj? && WellFormed(patch)
    ensures MergeMembers(MergeMembers(bms, patch), patch) == MergeMembers(bms, patch)
    decreases patch, 0, |bms|
  {
    if bms != [] {
      MergeMembersTwice(bms[1..], patch);
      match IndexOf(patch.members, bms[0].key)
      case None =>
      case Some(j) =>
        MergeTwice(bms[0].value, patch.members[j].value);
    }
  }

  /** Deep merge is idempotent: merging the same well-formed patch twice is merging it once. */
  lemma {:induction false} MergeTwice(base: Value, patch: Value)
    requires WellFormed(patch)
    ensures DeepMerge(DeepMerge(base, patch), patch) == DeepMerge(base, patch)
    decreases patch, 1
  {
    if patch.Obj? {
      if base.Obj? {
        var olds := MergeMembers(base.members, patch);
        var news := NewMembers(patch.members, base.members);
        var merged := DeepMerge(base, patch);
        assert merged.members == olds + news;
        MergeMembersConcat(olds, news, patch);
        MergeMembersTwice(base.members, patch);
        forall i | 0 <= i < |patch.members|
          ensures Lookup(patch.members, patch.members[i].key) == Some(patch.members[i].value)
        {
          LookupAt(patch.members, i);
        }
        NewMembersFromPatch(patch.members, base.members, patch.members);
        MergeMembersFixed(news, patch);
        forall i | 0 <= i < |patch.members| ensures Has(merged.members, patch.members[i].key) {
          MergeHas(base, patch, patch.members[i].key);
          assert Lookup(patch.members, patch.members[i].key).Some? by { LookupAt(patch.members, i); }
        }
        NewMembersCovered(patch.members, merged.members);
      } else {
        SelfMerge(patch);
      }
    }
  }

  /** Absorbing an object into the fresh empty object clones it. */
  lemma AbsorbIntoEmpty(v: Value)
    requires v.Obj?
    ensures Absorb(Obj([]), v) == v
  {
    NewMembersOfEmpty(v.members);
    assert MergeMembers([], v) == [];
    assert [] + v.members == v.members;
  }

  /** `merge.recursive(true, x, patch)` on a plain object `x` is the deep merge of the two. */
  lemma MergeRecursiveOfObjects(base: Value, patch: Value)
    requires base.Obj? && patch.Obj?
    ensures MergeRecursive(base, patch) == DeepMerge(base, patch)
  {
    AbsorbIntoEmpty(base);
  }

  /** Submitting or binding the same patch twice gives the state that submitting it once gives. */
  lemma MergeRecursiveTwice(base: Value, patch: Value)
    requires WellFormed(patch)
    ensures MergeRecursive(MergeRecursive(base, patch), patch) == MergeRecursive(base, patch)
  {
    var once := MergeRecursive(base, patch);
    AbsorbIntoEmpty(once);
    var start := Absorb(Obj([]), base);
    if patch.Obj? {
      MergeTwice(start, patch);
    }
  }

  // ---------------------------------------------------------------------------
  // Overriding one leaf

  lemma {:induction false} MergeMembersUntouched(bms: seq<Member>, patch: Value)
    requires patch.Obj?
    requires forall i :: 0 <= i < |bms| ==> !Has(patch.members, bms[i].key)
    ensures MergeMembers(bms, patch) == bms
  {
    if bms != [] {
      MergeMembersUntouched(bms[1..], patch);
    }
  }

  /**
   * Merging `{k: x}` with `x` not an object into an object replaces the value
   * of `k` in place, or appends `k` when the object lacks it; nothing else moves.
   */
  lemma {:induction false} MergeOneLeaf(bms: seq<Member>, k: string, x: Value)
    requires DistinctKeys(bms) && !x.Obj?
    ensures DeepMerge(Obj(bms), Obj([Member(k, x)])) == Obj(Assign(bms, k, x))
  {
    var patch := Obj([Member(k, x)]);
    if Has(bms, k) {
      MergeMembersOneLeaf(bms, k, x);
      NewMembersCovered(patch.members, bms);
    } else {
      MergeMembersUntouched(bms, patch);
      AssignAppends(bms, k, x);
      assert NewMembers(patch.members, bms) == [Member(k, x)] + NewMembers([], bms);
    }
  }

  lemma {:induction false} MergeMembersOneLeaf(bms: seq<Member>, k: string, x: Value)
    requires DistinctKeys(bms) && !x.Obj? && Has(bms, k)
    ensures MergeMembers(bms, Obj([Member(k, x)])) == Assign(bms, k, x)
  {
    var patch := Obj([Member(k, x)]);
    if bms[0].key == k {
      MergeMembersUntouched(bms[1..], patch);
    } else {
      MergeMembersOneLeaf(bms[1..], k, x);
    }
  }

  // ---------------------------------------------------------------------------
  // Merging keeps values well formed

  /** The new members of a merge are members of the patch whose names the base lacks. */
  lemma {:induction false} NewMembersFrom(pms: seq<Member>, bms: seq<Member>)
    ensures forall i :: 0 <= i < |NewMembers(pms, bms)| ==>
      NewMembers(pms, bms)[i] in pms && !Has(bms, NewMembers(pms, bms)[i].key)
  {
    if pms != [] {
      NewMembersFrom(pms[1..], bms);
      var head := if Has(bms, pms[0].key) then [] else [pms[0]];
      var rest := NewMembers(pms[1..], bms);
      assert NewMembers(pms, bms) == head + rest;
      assert forall x :: x in rest ==> x in pms by {
        forall x | x in rest ensures x in pms {
          var j :| 0 <= j < |rest| && rest[j] == x;
          assert x in pms[1..];
        }
      }
    }
  }

  /** The new members of a merge repeat no name when the patch repeats none. */
  lemma {:induction false} NewMembersDistinct(pms: seq<Member>, bms: seq<Member>)
    requires DistinctKeys(pms)
    ensures DistinctKeys(NewMembers(pms, bms))
  {
    if pms != [] {
      var rest := NewMembers(pms[1..], bms);
      assert DistinctKeys(pms[1..]) by {
        assert forall i :: 0 <= i < |pms| - 1 ==> pms[1..][i] == pms[i + 1];
      }
      NewMembersDistinct(pms[1..], bms);
      NewMembersFrom(pms[1..], bms);
      assert forall j :: 0 <= j < |rest| ==> rest[j].key != pms[0].key by {
        forall j | 0 <= j < |rest| ensures rest[j].key != pms[0].key {
          assert rest[j] in pms[1..];
          var t :| 0 <= t < |pms| - 1 && pms[1..][t] == rest[j];
          assert pms[t + 1] == rest[j];
        }
      }
      if !Has(bms, pms[0].key) {
        assert NewMembers(pms, bms) == [pms[0]] + rest;
      } else {
        assert NewMembers(pms, bms) == rest;
      }
    }
  }

  /** Merging the base's members with a well-formed patch keeps every value well formed. */
  lemma {:induction false} MergeMembersWellFormed(bms: seq<Member>, patch: Value)
    requires patch.Obj? && WellFormed(patch)
    requires forall i :: 0 <= i < |bms| ==> WellFormed(bms[i].value)
    ensures forall i :: 0 <= i < |bms| ==> WellFormed(MergeMembers(bms, patch)[i].value)
    decreases patch, 0, |bms|
  {
    if bms != [] {
      var m := bms[0];
      var r := MergeMembers(bms, patch);
      match IndexOf(patch.members, m.key) {
        case None =>
        case Some(j) => MergeWellFormed(m.value, patch.members[j].value);
      }
      MergeMembersWellFormed(bms[1..], patch);
      assert forall i :: 1 <= i < |bms| ==> r[i] == MergeMembers(bms[1..], patch)[i - 1];
    }
  }

  /** The recursive union of two well-formed values is well formed: the merge never repeats a name. */
  lemma {:induction false} MergeWellFormed(base: Value, patch: Value)
    requires WellFormed(base) && WellFormed(patch)
    ensures WellFormed(DeepMerge(base, patch))
    decreases patch, 1
  {
    if base.Obj? && patch.Obj? {
      var bms := base.members;
      var ms := MergeMembers(bms, patch);
      var ns := NewMembers(patch.members, bms);
      var r := ms + ns;
      MergeMembersWellFormed(bms, patch);
      NewMembersFrom(patch.members, bms);
      NewMembersDistinct(patch.members, bms);
      forall x | x in ns ensures WellFormed(x.value) {
        var j :| 0 <= j < |patch.members| && patch.members[j] == x;
      }
      forall i | 0 <= i < |r| ensures WellFormed(r[i].value) {
        if i >= |ms| {
          assert r[i] == ns[i - |ms|];
        }
      }
      forall i, j | 0 <= i < j < |r| ensures r[i].key != r[j].key {
        if j < |ms| {
          assert r[i] == ms[i] && r[j] == ms[j];
        } else if i >= |ms| {
          assert r[i] == ns[i - |ms|] && r[j] == ns[j - |ms|];
        } else {
          assert r[i].key == bms[i].key && r[j] == ns[j - |ms|];
          assert Has(bms, bms[i].key);
        }
      }
    }
  }

  /** `merge.recursive(true, base, patch)` of two well-formed values is well formed. */
  lemma MergeRecursiveWellFormed(base: Value, patch: Value)
    requires WellFormed(base) && WellFormed(patch)
    ensures WellFormed(MergeRecursive(base, patch))
  {
    var start := Absorb(Obj([]), base);
    if base.Obj? {
      MergeWellFormed(Obj([]), base);
    }
    if patch.Obj? {
      MergeWellFormed(start, patch);
    }
  }
}
