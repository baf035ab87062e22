/**
 * Node's `path` module as used by the cache engine. A path is the list of
 * its segments from the root; `path.resolve` and `path.join` become list
 * concatenation after splitting a string at '/'. Directory trees are maps
 * from paths to file contents.
 */
module Paths {

  type Path = seq<string>

  /** A normalised segment: non-empty, not ".", without '/'. */
  predicate IsSegment(s: string) {
    s != "" && s != "." && '/' !in s
  }

  predicate AllSegments(p: Path) {
    forall i :: 0 <= i < |p| ==> IsSegment(p[i])
  }

  /** Length of the leading run of `s` that holds no '/'. */
  function SegmentLength(s: string): (n: nat)
    ensures n <= |s| && '/' !in s[..n]
    ensures n < |s| ==> s[n] == '/'
  {
    if s == [] || s[0] == '/' then 0 else 1 + SegmentLength(s[1..])
  }

  /** The segments of a path string; empty and "." segments vanish, as
    * they do under `path.resolve`. */
  function SplitPath(s: string): (p: Path)
    ensures AllSegments(p)
    decreases |s|
  {
    if s == [] then []
    else if s[0] == '/' then SplitPath(s[1..])
    else
      var n := SegmentLength(s);
      var rest := SplitPath(s[n..]);
      if s[..n] == "." then rest else [s[..n]] + rest
  }

  /** A single normalised segment splits into itself. */
  lemma SplitSegment(s: string)
    ensures IsSegment(s) ==> SplitPath(s) == [s]
  {
    if IsSegment(s) {
      assert SegmentLength(s) == |s| by { SegmentLengthOfSegment(s); }
      assert s[0] != '/' && s[..|s|] == s && s[|s|..] == [];
    }
  }

  lemma {:induction false} SegmentLengthOfSegment(s: string)
    requires '/' !in s
    ensures SegmentLength(s) == |s|
  {
    if s != [] {
      SegmentLengthOfSegment(s[1..]);
    }
  }

  /** One step of `path.resolve(from, s)`: an absolute `s` starts again at
    * the root, a relative one is appended. */
  function Resolve(from: Path, s: string): (r: Path)
    ensures |s| > 0 && s[0] == '/' ==> r == SplitPath(s)
    ensures (|s| == 0 || s[0] != '/') ==> r == from + SplitPath(s)
    ensures AllSegments(from) ==> AllSegments(r)
    ensures IsSegment(s) ==> r == from + [s]
    ensures s == "" ==> r == from
  {
    SplitSegment(s);
    if |s| > 0 && s[0] == '/' then SplitPath(s) else from + SplitPath(s)
  }

  /** The absolute path string, as `path.resolve` prints it. */
  function Render(p: Path): (r: string)
    ensures |r| > 0 && r[0] == '/'
  {
    if p == [] then "/" else RenderSegments(p)
  }

  function RenderSegments(p: Path): string {
    if p == [] then "" else "/" + p[0] + RenderSegments(p[1..])
  }

  /** Rendering loses nothing: splitting the rendered string gives the path
    * back, so distinct paths print differently. */
  lemma {:induction false} RenderRoundTrip(p: Path)
    requires AllSegments(p)
    ensures SplitPath(Render(p)) == p
  {
    if p != [] {
      RenderSegmentsRoundTrip(p);
    }
  }

  /** Resolving a printed absolute path gives the path back. */
  lemma ResolveRendered(from: Path, p: Path)
    requires AllSegments(p)
    ensures Resolve(from, Render(p)) == p
  {
    RenderRoundTrip(p);
  }

  lemma {:induction false} RenderSegmentsRoundTrip(p: Path)
    requires AllSegments(p)
    ensures SplitPath(RenderSegments(p)) == p
  {
    if p != [] {
      var seg, rest := p[0], RenderSegments(p[1..]);
      var s := "/" + seg + rest;
      assert s[1..] == seg + rest;
      assert rest == [] || rest[0] == '/' by {
        if p[1..] != [] {
          assert rest == "/" + p[1] + RenderSegments(p[2..]);
        }
      }
      SegmentLengthPrefix(seg, rest);
      assert (seg + rest)[..|seg|] == seg;
      assert (seg + rest)[|seg|..] == rest;
      RenderSegmentsRoundTrip(p[1..]);
    }
  }

  lemma {:induction false} SegmentLengthPrefix(seg: string, rest: string)
    requires '/' !in seg
    requires rest == [] || rest[0] == '/'
    ensures SegmentLength(seg + rest) == |seg|
  {
    if seg != [] {
      assert (seg + rest)[1..] == seg[1..] + rest;
      SegmentLengthPrefix(seg[1..], rest);
    }
  }

  /** Splitting at a '/' splits each side: `a/b` has the segments of `a`
    * followed by those of `b`. */
  lemma {:induction false} SplitPathJoin(a: string, b: string)
    ensures SplitPath(a + "/" + b) == SplitPath(a) + SplitPath(b)
    decreases |a|
  {
    var x := a + "/" + b;
    if a == [] {
      assert x[1..] == b;
    } else if a[0] == '/' {
      assert x[1..] == a[1..] + "/" + b;
      SplitPathJoin(a[1..], b);
    } else {
      var n := SegmentLength(a);
      var rest := a[n..] + "/" + b;
      assert x == a[..n] + rest;
      SegmentLengthPrefix(a[..n], rest);
      assert x[..n] == a[..n] && x[n..] == rest;
      SplitPathJoin(a[n..], b);
    }
  }

  /** Resolving `a/b` is resolving `a` and then appending the segments of
    * `b`, for a non-empty `a` (an empty one would make `/b` absolute). */
  lemma ResolveAppend(from: Path, a: string, b: string)
    requires a != ""
    ensures Resolve(from, a + "/" + b) == Resolve(from, a) + SplitPath(b)
  {
    SplitPathJoin(a, b);
    assert (a + "/" + b)[0] == a[0];
  }

  /** Resolving `path.join(base, name)` for a non-empty `base` appends the
    * segment `name` to where `base` resolves. */
  lemma ResolveJoin(from: Path, base: string, name: string)
    requires base != "" && IsSegment(name)
    ensures Resolve(from, Join(base, name)) == Resolve(from, base) + [name]
  {
    SplitSegment(name);
    if base[|base| - 1] == '/' {
      var b0 := base[..|base| - 1];
      assert base == b0 + "/" + "";
      assert base + name == b0 + "/" + name;
      if b0 == "" {
        assert SplitPath(base) == [] by {
          assert base == "/" && base[1..] == "";
        }
        assert (base + name)[0] == '/';
        assert SplitPath(base + name) == SplitPath(name) by {
          assert (base + name)[1..] == name;
        }
      } else {
        ResolveAppend(from, b0, "");
        ResolveAppend(from, b0, name);
      }
    } else {
      ResolveAppend(from, base, name);
    }
  }

  /** `path.join(a, b)` on strings, without `path.join`'s normalisation. */
  function Join(a: string, b: string): (r: string)
    ensures a == "" ==> r == b
    ensures a != "" ==> |r| >= |a| + |b| && r[..|a|] == a && r[|r| - |b|..] == b
    ensures a != "" && a[|a| - 1] == '/' ==> |r| == |a| + |b|
    ensures a != "" && a[|a| - 1] != '/' ==> |r| == |a| + 1 + |b| && r[|a|] == '/'
  {
    if a == "" then b else if a[|a| - 1] == '/' then a + b else a + "/" + b
  }

  lemma PrefixCancel(d: Path)
    ensures forall k1, k2 {:trigger d + k1, d + k2} :: d + k1 == d + k2 ==> k1 == k2
  {
    forall k1, k2 | d + k1 == d + k2 ensures k1 == k2 {
      assert k1 == (d + k1)[|d|..];
      assert k2 == (d + k2)[|d|..];
    }
  }

  lemma DropCancel(d: Path)
    ensures forall p1, p2 {:trigger p1[|d|..], p2[|d|..]} :: d < p1 && d < p2 && p1[|d|..] == p2[|d|..] ==> p1 == p2
  {
    forall p1, p2 | d < p1 && d < p2 && p1[|d|..] == p2[|d|..] ensures p1 == p2 {
      assert p1 == d + p1[|d|..];
      assert p2 == d + p2[|d|..];
    }
  }

  /** A tree keyed by relative paths has no entry for the empty path. */
  predicate Relative<V>(t: map<Path, V>) {
    [] !in t
  }

  /** The entries strictly below `d`, keyed relative to `d`: what
    * `tar -C d .` takes in. */
  function Subtree<V>(f: map<Path, V>, d: Path): (t: map<Path, V>)
    ensures Relative(t)
    ensures forall k :: k in t <==> d + k in f && k != []
    ensures forall k :: k in t ==> t[k] == f[d + k]
  {
    DropCancel(d);
    var t := map p | p in f && d < p :: p[|d|..] := f[p];
    assert forall k :: k in t <==> d + k in f && k != [] by {
      forall k ensures k in t <==> d + k in f && k != [] {
        if d + k in f && k != [] {
          assert (d + k)[|d|..] == k;
        }
        if k in t {
          var p :| p in f && d < p && p[|d|..] == k;
          assert p == d + k;
        }
      }
    }
    assert forall k :: k in t ==> t[k] == f[d + k] by {
      forall k | k in t ensures t[k] == f[d + k] {
        var p :| p in f && d < p && p[|d|..] == k;
        assert p == d + k;
      }
    }
    t
  }

  /** The tree `t` placed below `d`: `Rebase(t, d)[d + k] == t[k]`. */
  function Rebase<V>(t: map<Path, V>, d: Path): (f: map<Path, V>)
    ensures forall p :: p in f <==> d < p && p[|d|..] in t
    ensures forall k :: k in t && k != [] ==> d + k in f && f[d + k] == t[k]
  {
    PrefixCancel(d);
    var f := map k | k in t && k != [] :: d + k := t[k];
    assert forall p :: p in f <==> d < p && p[|d|..] in t by {
      forall p ensures p in f <==> d < p && p[|d|..] in t {
        if d < p && p[|d|..] in t {
          assert p == d + p[|d|..];
        }
        if p in f {
          var k :| k in t && k != [] && p == d + k;
          assert p[|d|..] == k;
        }
      }
    }
    f
  }

  /** Everything not strictly below `d`: what is left after clearing the
    * contents of `d`. */
  function Without<V>(f: map<Path, V>, d: Path): (g: map<Path, V>)
    ensures forall p :: p in g <==> p in f && !(d < p)
    ensures forall p :: p in g ==> g[p] == f[p]
    ensures forall p :: d < p ==> p !in g
    ensures forall p :: p in f && !(d < p) ==> p in g
  {
    map p | p in f && !(d < p) :: f[p]
  }

  /** Placing `t` below `d`, in files that hold nothing below `d`, and
    * reading `d` back gives `t`. */
  lemma SubtreeOfReplaced<V>(g: map<Path, V>, d: Path, t: map<Path, V>)
    requires Relative(t)
    requires forall p :: p in g ==> !(d < p)
    ensures Subtree(g + Rebase(t, d), d) == t
  {
    var u := Subtree(g + Rebase(t, d), d);
    forall k | k in t ensures k in u && u[k] == t[k] {
      assert d < d + k && (d + k)[|d|..] == k;
    }
    forall k | k in u ensures k in t {
      assert d < d + k && (d + k)[|d|..] == k;
    }
  }

  /** Reading back a tree that was placed below `d` gives its relative part. */
  lemma SubtreeOfRebase<V>(t: map<Path, V>, d: Path)
    requires Relative(t)
    ensures Subtree(Rebase(t, d), d) == t
  {
    var u := Subtree(Rebase(t, d), d);
    forall k | k in t ensures k in u && u[k] == t[k] {
      assert d < d + k && (d + k)[|d|..] == k;
    }
    forall k | k in u ensures k in t {
      assert d < d + k && (d + k)[|d|..] == k;
    }
  }

  /** Placing `t` below `d` over existing files: `d`'s tree becomes the old
    * one overwritten by `t`. */
  lemma SubtreeOfOverlay<V>(g: map<Path, V>, d: Path, t: map<Path, V>)
    requires Relative(t)
    ensures Subtree(g + Rebase(t, d), d) == Subtree(g, d) + t
  {
    var u, w := Subtree(g + Rebase(t, d), d), Subtree(g, d) + t;
    forall k | k in u ensures k in w && u[k] == w[k] {
      OverlayKey(g, d, t, k);
    }
    forall k | k in w ensures k in u {
      OverlayKey(g, d, t, k);
    }
    MapsEqual(u, w);
  }

  /** One key of `SubtreeOfOverlay`. */
  lemma OverlayKey<V>(g: map<Path, V>, d: Path, t: map<Path, V>, k: Path)
    requires Relative(t)
    ensures var u, w := Subtree(g + Rebase(t, d), d), Subtree(g, d) + t;
      (k in u <==> k in w) && (k in u ==> u[k] == w[k])
  {
    assert d < d + k <==> k != [];
    assert (d + k)[|d|..] == k;
  }

  /** A file below `d` whose relative path is missing from `d`'s tree is
    * not there. */
  lemma OutsideSubtree<V>(f: map<Path, V>, d: Path, q: Path)
    requires d < q && q[|d|..] !in Subtree(f, d)
    ensures q !in f
  {
    assert q == d + q[|d|..];
  }

  /** Writing a file that is not below `d` leaves `d`'s tree alone. */
  lemma SubtreeOfUpdate<V>(f: map<Path, V>, d: Path, q: Path, v: V)
    requires !(d < q)
    ensures Subtree(f[q := v], d) == Subtree(f, d)
  {
    var u, w := Subtree(f[q := v], d), Subtree(f, d);
    forall k | k in u ensures k in w && u[k] == w[k] {
      assert d < d + k;
    }
  }

  /** Placing a tree below `b` and then below `a` is placing it below `a + b`. */
  lemma RebaseTwice<V>(t: map<Path, V>, a: Path, b: Path)
    ensures Rebase(Rebase(t, b), a) == Rebase(t, a + b)
  {
    var l, r := Rebase(Rebase(t, b), a), Rebase(t, a + b);
    forall p | p in l ensures p in r && l[p] == r[p] {
      RebaseTwiceOuter(t, a, b, p);
    }
    forall p | p in r ensures p in l {
      RebaseTwiceInner(t, a, b, p);
    }
    MapsEqual(l, r);
  }

  lemma MapsEqual<K, V>(l: map<K, V>, r: map<K, V>)
    requires forall p :: p in l ==> p in r && l[p] == r[p]
    requires forall p :: p in r ==> p in l
    ensures l == r
  {
  }

  lemma RebaseTwiceOuter<V>(t: map<Path, V>, a: Path, b: Path, p: Path)
    requires p in Rebase(Rebase(t, b), a)
    ensures p in Rebase(t, a + b) && Rebase(Rebase(t, b), a)[p] == Rebase(t, a + b)[p]
  {
    var inner := Rebase(t, b);
    var q := p[|a|..];
    assert a < p && q in inner;
    assert p == a + q;
    var k := q[|b|..];
    assert b < q && k in t;
    assert q == b + k;
    assert Rebase(inner, a)[a + q] == inner[q];
    assert inner[b + k] == t[k];
    assert p == (a + b) + k;
  }

  lemma RebaseTwiceInner<V>(t: map<Path, V>, a: Path, b: Path, p: Path)
    requires p in Rebase(t, a + b)
    ensures p in Rebase(Rebase(t, b), a)
  {
    var k := p[|a + b|..];
    assert a + b < p && k in t;
    assert p == a + (b + k);
    assert b + k in Rebase(t, b);
  }
}
