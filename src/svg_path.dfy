/*
 * The two scanners that scripts/generate-body-data.js and
 * scripts/analyze-svg.js share, written out as left-to-right scanners:
 *
 *  - the `d="..."` attribute extractor, the global regular expression
 *    /d="([^"]+)"/g run with `exec` until it finds no further match;
 *  - the anchor-point scanner of `getCentroid`, the global regular
 *    expression /[ML] ?(-?\d+) (-?\d+)/g, and the centroid it averages.
 *
 * A global `exec` tries each position from the end of the previous match
 * on; the first position where the pattern matches gives the next match.
 * Both patterns are deterministic once written out (a shorter digit run or
 * a skipped optional character can never be followed by what the pattern
 * needs next), so a match at a position is a function of that position.
 */
module SvgPath {
  import opened Js
  import opened Text

  /** A point of a path: the averaged coordinates. */
  datatype Point = Point(x: real, y: real)

  // ---------------------------------------------------------------------
  // d="..." attributes
  // ---------------------------------------------------------------------

  /** The first index at or after `i` holding a double quote, or `|s|`. */
  function QuoteFrom(s: string, i: nat): (j: nat)
    requires i <= |s|
    ensures i <= j <= |s|
    ensures j < |s| ==> s[j] == '"'
    ensures forall k :: i <= k < j ==> s[k] != '"'
    decreases |s| - i
  {
    if i == |s| || s[i] == '"' then i else QuoteFrom(s, i + 1)
  }

  /** No double quote in `s[i..j]`. */
  predicate QuoteFree(s: string, i: nat, j: nat)
    requires i <= j <= |s|
  {
    forall k :: i <= k < j ==> s[k] != '"'
  }

  /**
   * /d="([^"]+)"/ matches `s[p..e]`: the opening `d="`, a non-empty value
   * free of double quotes, and the closing quote at `e - 1`.
   */
  predicate AttrMatch(s: string, p: nat, e: nat)
  {
    p + 5 <= e <= |s| && s[p] == 'd' && s[p + 1] == '=' && s[p + 2] == '"' &&
    s[e - 1] == '"' && QuoteFree(s, p + 3, e - 1)
  }

  /** Where a match of /d="([^"]+)"/ starting at `p` ends, if it matches there. */
  function AttrAt(s: string, p: nat): (r: Option<nat>)
    ensures r.Some? ==> AttrMatch(s, p, r.value)
    ensures forall e: nat :: AttrMatch(s, p, e) ==> r == Some(e)
  {
    if p + 3 <= |s| && s[p] == 'd' && s[p + 1] == '=' && s[p + 2] == '"' then
      var j := QuoteFrom(s, p + 3);
      if p + 3 < j < |s| then Some(j + 1) else None
    else None
  }

  /** The captured attribute values of every match from position `p` on, in order. */
  function AttrsFrom(s: string, p: nat): seq<string>
    requires p <= |s|
    decreases |s| - p
  {
    if p == |s| then []
    else match AttrAt(s, p)
      case Some(e) => [s[p + 3..e - 1]] + AttrsFrom(s, e)
      case None => AttrsFrom(s, p + 1)
  }

  /** The path extraction loop: every `d="..."` value of `svg`, in document order. */
  method ExtractPaths(svg: string) returns (paths: seq<string>)
    ensures paths == AttrsFrom(svg, 0)
  {
    paths := [];
    var lastIndex := 0;
    while lastIndex < |svg|
      invariant 0 <= lastIndex <= |svg|
      invariant paths + AttrsFrom(svg, lastIndex) == AttrsFrom(svg, 0)
      decreases |svg| - lastIndex
    {
      match AttrAt(svg, lastIndex)
      case Some(e) =>
        paths := paths + [svg[lastIndex + 3..e - 1]];
        lastIndex := e;
      case None =>
        lastIndex := lastIndex + 1;
    }
  }

  /** An attribute value the pattern can capture: non-empty and free of double quotes. */
  predicate AttrValue(v: string)
  {
    v != [] && forall k :: 0 <= k < |v| ==> v[k] != '"'
  }

  /** `d="v"` as written in the document. */
  function DAttr(v: string): string
  {
    "d=\"" + v + "\""
  }

  /** Every extracted value is one the pattern can capture and stands in the document as `d="v"`. */
  lemma {:induction false} AttrsAreAttributes(s: string, p: nat)
    requires p <= |s|
    ensures forall v :: v in AttrsFrom(s, p) ==> AttrValue(v) && Contains(s, DAttr(v))
    decreases |s| - p
  {
    if p < |s| {
      match AttrAt(s, p)
      case Some(e) =>
        AttrsAreAttributes(s, e);
        var v := s[p + 3..e - 1];
        assert s[p..e] == DAttr(v);
        ContainsIsSlice(s, DAttr(v));
        assert OccursAt(s, DAttr(v), p);
      case None =>
        AttrsAreAttributes(s, p + 1);
    }
  }

  /** Attributes written one after another, each preceded by a space: ` d="v0" d="v1" ...`. */
  function Attributes(vs: seq<string>): string
  {
    if vs == [] then "" else " " + DAttr(vs[0]) + Attributes(vs[1..])
  }

  /** Scanning a suffix of `a + t` is scanning `t`. */
  lemma {:induction false} AttrsFromShift(a: string, t: string, k: nat)
    requires k <= |t|
    ensures AttrsFrom(a + t, |a| + k) == AttrsFrom(t, k)
    decreases |t| - k
  {
    var s := a + t;
    if k < |t| {
      AttrAtShift(a, t, k);
      match AttrAt(t, k)
      case Some(e) =>
        AttrsFromShift(a, t, e);
        assert s[|a| + k + 3..|a| + e - 1] == t[k + 3..e - 1];
      case None =>
        AttrsFromShift(a, t, k + 1);
    }
  }

  lemma {:induction false} QuoteFromShift(a: string, t: string, k: nat)
    requires k <= |t|
    ensures QuoteFrom(a + t, |a| + k) == |a| + QuoteFrom(t, k)
    decreases |t| - k
  {
    if k < |t| && t[k] != '"' {
      QuoteFromShift(a, t, k + 1);
    }
  }

  lemma AttrAtShift(a: string, t: string, k: nat)
    requires k <= |t|
    ensures AttrAt(a + t, |a| + k) == (if AttrAt(t, k).Some? then Some(|a| + AttrAt(t, k).value) else None)
  {
    if k + 3 <= |t| {
      QuoteFromShift(a, t, k + 3);
    }
  }

  /**
   * Extraction inverts writing: attributes written out in order are
   * extracted in that order, so no path is dropped, duplicated or reordered.
   */
  lemma {:induction false} ExtractWritten(vs: seq<string>)
    requires forall i :: 0 <= i < |vs| ==> AttrValue(vs[i])
    ensures AttrsFrom(Attributes(vs), 0) == vs
    decreases |vs|
  {
    if vs != [] {
      var v := vs[0];
      var head := " " + DAttr(v);
      var s := head + Attributes(vs[1..]);
      assert Attributes(vs) == s;
      assert AttrAt(s, 0).None?;
      assert s[1..4] == "d=\"";
      assert forall k :: 4 <= k < 4 + |v| ==> s[k] == v[k - 4];
      assert s[4 + |v|] == '"';
      assert QuoteFrom(s, 4) == 4 + |v|;
      assert AttrAt(s, 1) == Some(|head|);
      assert s[4..|head| - 1] == v;
      ExtractWritten(vs[1..]);
      AttrsFromShift(head, Attributes(vs[1..]), 0);
    }
  }

  /** The pattern also matches the end of an `id="..."` attribute: `id` ends in `d`. */
  lemma IdAttributeIsCaptured()
    ensures AttrsFrom("id=\"x\"", 0) == ["x"]
  {
    var s := "id=\"x\"";
    assert AttrAt(s, 0).None?;
    assert QuoteFrom(s, 4) == 5;
    assert AttrAt(s, 1) == Some(6);
    assert s[4..5] == "x";
  }

  // ---------------------------------------------------------------------
  // Anchor points and the centroid
  // ---------------------------------------------------------------------

  predicate IsDigit(c: char)
  {
    '0' <= c <= '9'
  }

  /** The first index at or after `i` that does not hold a digit, or `|s|`. */
  function DigitsFrom(s: string, i: nat): (j: nat)
    requires i <= |s|
    ensures i <= j <= |s|
    ensures j < |s| ==> !IsDigit(s[j])
    ensures forall k :: i <= k < j ==> IsDigit(s[k])
    decreases |s| - i
  {
    if i == |s| || !IsDigit(s[i]) then i else DigitsFrom(s, i + 1)
  }

  /** The decimal value of a run of digits (`parseFloat` of a digit run). */
  function DigitsValue(ds: string): (n: nat)
    requires forall k :: 0 <= k < |ds| ==> IsDigit(ds[k])
  {
    if ds == [] then 0
    else
      assert IsDigit(ds[|ds| - 1]);
      10 * DigitsValue(ds[..|ds| - 1]) + (ds[|ds| - 1] as int - '0' as int)
  }

  /** `s[j..e]` is a maximal run of digits: all digits, and no digit right after it. */
  predicate DigitRun(s: string, j: nat, e: nat)
    requires j <= e <= |s|
  {
    (forall k :: j <= k < e ==> IsDigit(s[k])) && (e < |s| ==> !IsDigit(s[e]))
  }

  /**
   * A match of /-?\d+/ at `i`: its value and where it ends. It fails exactly
   * when no digit follows the optional minus; otherwise it takes the whole
   * digit run, negated after a minus.
   */
  function IntAt(s: string, i: nat): (r: Option<(int, nat)>)
    requires i <= |s|
    ensures var j := if i < |s| && s[i] == '-' then i + 1 else i;
      r.None? <==> j == |s| || !IsDigit(s[j])
    ensures r.Some? ==>
      var j := if i < |s| && s[i] == '-' then i + 1 else i;
      j < r.value.1 <= |s| && DigitRun(s, j, r.value.1) &&
      r.value.0 == (if j == i then 1 else -1) * DigitsValue(s[j..r.value.1])
  {
    var neg := i < |s| && s[i] == '-';
    var j := if neg then i + 1 else i;
    var e := DigitsFrom(s, j);
    if e == j then None
    else
      var n: int := DigitsValue(s[j..e]);
      Some((if neg then -n else n, e))
  }

  /** Where the first number of an anchor point starts: after the command letter at `p` and an optional single space. */
  function CoordStart(s: string, p: nat): (q: nat)
    requires p < |s|
    ensures p < q <= |s| && q <= p + 2
    ensures q == p + 2 <==> p + 1 < |s| && s[p + 1] == ' '
  {
    if p + 1 < |s| && s[p + 1] == ' ' then p + 2 else p + 1
  }

  /**
   * A match of /[ML] ?(-?\d+) (-?\d+)/ at `p`: the two numbers and where the
   * match ends. Only an upper-case `M` or `L` starts one; the second number is
   * the integer read after a space, and the match ends where its digits do.
   */
  function PairAt(s: string, p: nat): (r: Option<(int, int, nat)>)
    requires p <= |s|
    ensures r.Some? ==> p < r.value.2 <= |s| && (s[p] == 'M' || s[p] == 'L')
    ensures r.Some? ==> exists q :: p + 2 < q < r.value.2 && s[q - 1] == ' ' && IntAt(s, q) == Some((r.value.1, r.value.2))
    ensures r.Some? ==> IsDigit(s[r.value.2 - 1]) && (r.value.2 < |s| ==> !IsDigit(s[r.value.2]))
  {
    if p < |s| && (s[p] == 'M' || s[p] == 'L') then
      var q := if p + 1 < |s| && s[p + 1] == ' ' then p + 2 else p + 1;
      match IntAt(s, q)
      case None => None
      case Some((x, e1)) =>
        if e1 < |s| && s[e1] == ' ' then
          match IntAt(s, e1 + 1)
          case None => None
          case Some((y, e2)) => Some((x, y, e2))
        else None
    else None
  }

  /**
   * When `PairAt` matches: exactly when `p` holds an upper-case `M` or `L`, an
   * integer follows after one optional space, and a space and a second integer
   * follow that; the pair is those two integers.
   */
  lemma PairAtMatches(s: string, p: nat)
    requires p <= |s|
    ensures p == |s| ==> PairAt(s, p).None?
    ensures p < |s| ==>
      var m := IntAt(s, CoordStart(s, p));
      (PairAt(s, p).Some? <==>
         (s[p] == 'M' || s[p] == 'L') && m.Some? && m.value.1 < |s| && s[m.value.1] == ' ' &&
         IntAt(s, m.value.1 + 1).Some?)
    ensures PairAt(s, p).Some? ==>
      var m := IntAt(s, CoordStart(s, p));
      m.Some? && PairAt(s, p).value.0 == m.value.0 && m.value.1 < |s| &&
      IntAt(s, m.value.1 + 1) == Some((PairAt(s, p).value.1, PairAt(s, p).value.2))
  {
  }

  /** The anchor points of every match from position `p` on, in order. */
  function PairsFrom(s: string, p: nat): seq<(int, int)>
    requires p <= |s|
    decreases |s| - p
  {
    if p == |s| then []
    else match PairAt(s, p)
      case Some((x, y, e)) => [(x, y)] + PairsFrom(s, e)
      case None => PairsFrom(s, p + 1)
  }

  function SumX(ps: seq<(int, int)>): int
  {
    if ps == [] then 0 else SumX(ps[..|ps| - 1]) + ps[|ps| - 1].0
  }

  function SumY(ps: seq<(int, int)>): int
  {
    if ps == [] then 0 else SumY(ps[..|ps| - 1]) + ps[|ps| - 1].1
  }

  /** The average of the anchor points, or (0, 0) when there are none. */
  function Centroid(d: string): Point
  {
    var ps := PairsFrom(d, 0);
    if |ps| == 0 then Point(0.0, 0.0)
    else Point(SumX(ps) as real / |ps| as real, SumY(ps) as real / |ps| as real)
  }

  lemma {:induction false} PairsFromSnoc(d: string, p: nat, done: seq<(int, int)>, x: int, y: int)
    ensures SumX(done + [(x, y)]) == SumX(done) + x
    ensures SumY(done + [(x, y)]) == SumY(done) + y
  {
    assert (done + [(x, y)])[..|done|] == done;
  }

  /** A match at `p` is taken whole, and the scan resumes where it ends. */
  lemma ScanTake(d: string, p: nat, done: seq<(int, int)>, x: int, y: int, e: nat)
    requires p < |d| && PairAt(d, p) == Some((x, y, e))
    requires done + PairsFrom(d, p) == PairsFrom(d, 0)
    ensures e <= |d| && (done + [(x, y)]) + PairsFrom(d, e) == PairsFrom(d, 0)
  {
    PairsFromStep(d, p);
    assert (done + [(x, y)]) + PairsFrom(d, e) == done + ([(x, y)] + PairsFrom(d, e));
  }

  /** Without a match at `p`, the scan resumes at `p + 1`. */
  lemma ScanSkip(d: string, p: nat, done: seq<(int, int)>)
    requires p < |d| && PairAt(d, p).None?
    requires done + PairsFrom(d, p) == PairsFrom(d, 0)
    ensures done + PairsFrom(d, p + 1) == PairsFrom(d, 0)
  {
    PairsFromStep(d, p);
  }

  lemma PairsFromStep(d: string, p: nat)
    requires p < |d|
    ensures PairAt(d, p).Some? ==> PairsFrom(d, p) == [(PairAt(d, p).value.0, PairAt(d, p).value.1)] + PairsFrom(d, PairAt(d, p).value.2)
    ensures PairAt(d, p).None? ==> PairsFrom(d, p) == PairsFrom(d, p + 1)
  {
  }

  /** `getCentroid`: the scanning loop with its running sums and count. */
  method GetCentroid(d: string) returns (c: Point)
    ensures c == Centroid(d)
  {
    var xSum, ySum, count := 0, 0, 0;
    ghost var done: seq<(int, int)> := [];
    var lastIndex := 0;
    while lastIndex < |d|
      invariant 0 <= lastIndex <= |d|
      invariant done + PairsFrom(d, lastIndex) == PairsFrom(d, 0)
      invariant xSum == SumX(done) && ySum == SumY(done) && count == |done|
      decreases |d| - lastIndex
    {
      var m := PairAt(d, lastIndex);
      if m.Some? {
        var (x, y, e) := m.value;
        ScanTake(d, lastIndex, done, x, y, e);
        PairsFromSnoc(d, lastIndex, done, x, y);
        xSum := xSum + x;
        ySum := ySum + y;
        count := count + 1;
        done := done + [(x, y)];
        lastIndex := e;
      } else {
        ScanSkip(d, lastIndex, done);
        lastIndex := lastIndex + 1;
      }
    }
    assert done + [] == done;
    var ps := PairsFrom(d, 0);
    assert done == ps;
    if count == 0 {
      c := Point(0.0, 0.0);
    } else {
      c := Point(xSum as real / count as real, ySum as real / count as real);
    }
  }

  /** Only upper-case `M` and `L` start an anchor point: a path without them has centroid (0, 0). */
  lemma {:induction false} NoCommandNoPairs(d: string, p: nat)
    requires p <= |d|
    requires forall k :: p <= k < |d| ==> d[k] != 'M' && d[k] != 'L'
    ensures PairsFrom(d, p) == []
    decreases |d| - p
  {
    if p < |d| {
      NoCommandNoPairs(d, p + 1);
    }
  }

  lemma Value1608()
    ensures DigitsValue("1608") == 1608
  {
    assert "1608"[..3] == "160" && "160"[..2] == "16" && "16"[..1] == "1" && "1"[..0] == "";
  }

  lemma Value4139()
    ensures DigitsValue("4139") == 4139
  {
    assert "4139"[..3] == "413" && "413"[..2] == "41" && "41"[..1] == "4" && "4"[..0] == "";
  }

  /** The first anchor point of a typical path: `M1608 4139` is the point (1608, 4139). */
  lemma MoveToExample()
    ensures PairsFrom("M1608 4139", 0) == [(1608, 4139)]
  {
    var s := "M1608 4139";
    assert DigitsFrom(s, 1) == 5;
    assert s[1..5] == "1608";
    Value1608();
    assert DigitsFrom(s, 6) == 10;
    assert s[6..10] == "4139";
    Value4139();
    assert PairAt(s, 0) == Some((1608, 4139, 10));
  }

  /** One more summand adds one more copy of `c`. */
  lemma MulSucc(n: int, c: int)
    ensures (n + 1) * c == n * c + c
  {
  }

  /** The sums lie between |ps| times the smallest and |ps| times the largest coordinate. */
  lemma {:induction false} SumXBounds(ps: seq<(int, int)>, lo: int, hi: int)
    requires forall i :: 0 <= i < |ps| ==> lo <= ps[i].0 <= hi
    ensures |ps| * lo <= SumX(ps) <= |ps| * hi
    decreases |ps|
  {
    if ps != [] {
      var init := ps[..|ps| - 1];
      SumXBounds(init, lo, hi);
      assert lo <= ps[|ps| - 1].0 <= hi;
      MulSucc(|init|, lo);
      MulSucc(|init|, hi);
    }
  }

  lemma {:induction false} SumYBounds(ps: seq<(int, int)>, lo: int, hi: int)
    requires forall i :: 0 <= i < |ps| ==> lo <= ps[i].1 <= hi
    ensures |ps| * lo <= SumY(ps) <= |ps| * hi
    decreases |ps|
  {
    if ps != [] {
      var init := ps[..|ps| - 1];
      SumYBounds(init, lo, hi);
      assert lo <= ps[|ps| - 1].1 <= hi;
      MulSucc(|init|, lo);
      MulSucc(|init|, hi);
    }
  }

  /** The centroid of a path with anchor points lies in the box spanned by them. */
  lemma CentroidInBox(d: string, lo: int, hi: int, bottom: int, top: int)
    requires PairsFrom(d, 0) != []
    requires forall i :: 0 <= i < |PairsFrom(d, 0)| ==> lo <= PairsFrom(d, 0)[i].0 <= hi
    requires forall i :: 0 <= i < |PairsFrom(d, 0)| ==> bottom <= PairsFrom(d, 0)[i].1 <= top
    ensures lo as real <= Centroid(d).x <= hi as real
    ensures bottom as real <= Centroid(d).y <= top as real
  {
    var ps := PairsFrom(d, 0);
    SumXBounds(ps, lo, hi);
    SumYBounds(ps, bottom, top);
    AverageBetween(SumX(ps), |ps|, lo, hi);
    AverageBetween(SumY(ps), |ps|, bottom, top);
  }

  /** A sum of `n` values between `lo` and `hi`, divided by `n`, is between `lo` and `hi`. */
  lemma AverageBetween(sum: int, n: int, lo: int, hi: int)
    requires n > 0
    requires n * lo <= sum <= n * hi
    ensures lo as real <= sum as real / n as real <= hi as real
  {
    var q := sum as real / n as real;
    assert q * n as real == sum as real;
    assert (n * lo) as real == n as real * lo as real;
    assert (n * hi) as real == n as real * hi as real;
    assert (q - lo as real) * n as real >= 0.0;
    assert (hi as real - q) * n as real >= 0.0;
  }
}
