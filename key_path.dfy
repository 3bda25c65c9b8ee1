/**
 * Dot-separated key paths such as `streamingConfig.profile.quicEnable`, as
 * `keyPath.split('.')` cuts them into segments (demo/App.js:133).
 */
module KeyPath {

  /** No segment contains a dot. */
  predicate DotFree(segs: seq<string>)
  {
    forall i :: 0 <= i < |segs| ==> '.' !in segs[i]
  }

  /** `s.split('.')`: the pieces between dots, empty pieces included. */
  function Split(s: string): (segs: seq<string>)
    ensures |segs| >= 1
    ensures DotFree(segs)
  {
    if s == [] then [""]
    else
      var rest := Split(s[1..]);
      if s[0] == '.' then [""] + rest
      else [[s[0]] + rest[0]] + rest[1..]
  }

  /** `segs.join('.')`. */
  function Join(segs: seq<string>): string
    requires |segs| >= 1
  {
    if |segs| == 1 then segs[0] else segs[0] + "." + Join(segs[1..])
  }

  /** The segment that `keys[keys.length - 1]` picks. */
  function LastKey(segs: seq<string>): (r: string)
    requires |segs| >= 1
    ensures segs == segs[..|segs| - 1] + [r]
    ensures DotFree(segs) ==> '.' !in r
  {
    segs[|segs| - 1]
  }

  /** Everything but the last segment, `keys.slice(0, -1)`. */
  function Parent(segs: seq<string>): (p: seq<string>)
    requires |segs| >= 1
    ensures p + [LastKey(segs)] == segs
  {
    segs[..|segs| - 1]
  }

  /** Splitting loses nothing: joining the segments with dots gives the path back. */
  lemma {:induction false} JoinSplit(s: string)
    ensures Join(Split(s)) == s
  {
    if s != [] {
      var rest := Split(s[1..]);
      JoinSplit(s[1..]);
      if s[0] == '.' {
        assert Split(s)[1..] == rest;
      } else {
        var segs := Split(s);
        assert segs[1..] == rest[1..];
        if |rest| > 1 {
          assert Join(rest) == rest[0] + "." + Join(rest[1..]);
        }
      }
    }
  }

  /** A path that does not start with a dot splits into its first segment glued to the rest's first. */
  lemma {:induction false} SplitPrefix(a: string, t: string)
    requires '.' !in a
    ensures Split(a + t) == [a + Split(t)[0]] + Split(t)[1..]
  {
    if a != [] {
      assert (a + t)[0] == a[0] && (a + t)[1..] == a[1..] + t;
      SplitPrefix(a[1..], t);
      assert [a[0]] + (a[1..] + Split(t)[0]) == a + Split(t)[0];
    } else {
      var segs := Split(t);
      assert a + t == t && a + segs[0] == segs[0];
      assert [segs[0]] + segs[1..] == segs;
    }
  }

  /** Segments without dots come back unchanged from joining and splitting. */
  lemma {:induction false} SplitJoin(segs: seq<string>)
    requires |segs| >= 1 && DotFree(segs)
    ensures Split(Join(segs)) == segs
  {
    if |segs| == 1 {
      SplitPrefix(segs[0], "");
      assert segs[0] + "" == segs[0];
    } else {
      var tail := Join(segs[1..]);
      SplitJoin(segs[1..]);
      assert segs[0] + "." + tail == segs[0] + ("." + tail);
      SplitPrefix(segs[0], "." + tail);
      assert ("." + tail)[0] == '.' && ("." + tail)[1..] == tail;
      assert Split("." + tail) == [""] + segs[1..];
      assert segs[0] + "" == segs[0];
    }
  }
}
