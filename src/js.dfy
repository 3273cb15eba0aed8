/*
 * The few JavaScript value idioms the source relies on: optional (null or
 * absent) fields, the falsy default `x || d`, and
 * `[a, b].filter(Boolean).join(sep)`.
 */
module Js {

  /** A field that may be null or absent. */
  datatype Option<+T> = None | Some(value: T)

  /** `x || 0` for a numeric field: null, absent and 0 all give 0. */
  function OrZero(x: Option<int>): (r: int)
    ensures x.Some? ==> r == x.value
    ensures x.None? ==> r == 0
  {
    if x.Some? then x.value else 0
  }

  /** `x || 0` for a real-valued field. */
  function OrZeroReal(x: Option<real>): (r: real)
    ensures x.Some? ==> r == x.value
    ensures x.None? ==> r == 0.0
  {
    if x.Some? then x.value else 0.0
  }

  /** `x || d` for a numeric field: the default replaces null, absent and 0. */
  function OrInt(x: Option<int>, d: int): (r: int)
    ensures x.Some? && x.value != 0 ==> r == x.value
    ensures x.None? || x.value == 0 ==> r == d
  {
    if x.Some? && x.value != 0 then x.value else d
  }

  /** A string field is truthy when present and non-empty. */
  predicate Truthy(x: Option<string>)
  {
    x.Some? && x.value != ""
  }

  /** `x || d` for a string field. */
  function OrString(x: Option<string>, d: string): (r: string)
    ensures Truthy(x) ==> r == x.value
    ensures !Truthy(x) ==> r == d
  {
    if Truthy(x) then x.value else d
  }

  /** `xs.filter(Boolean)` on a list of optional strings. */
  function Compact(xs: seq<Option<string>>): (r: seq<string>)
    ensures forall i :: 0 <= i < |r| ==> r[i] != ""
    ensures |r| <= |xs|
  {
    if xs == [] then []
    else if Truthy(xs[|xs| - 1]) then Compact(xs[..|xs| - 1]) + [xs[|xs| - 1].value]
    else Compact(xs[..|xs| - 1])
  }

  /** `parts.join(sep)`. */
  function Join(parts: seq<string>, sep: string): string
  {
    if parts == [] then ""
    else if |parts| == 1 then parts[0]
    else Join(parts[..|parts| - 1], sep) + sep + parts[|parts| - 1]
  }

  /** `[a, b].filter(Boolean).join(sep)`. */
  function JoinTruthy(a: Option<string>, b: Option<string>, sep: string): (r: string)
    ensures !Truthy(a) ==> r == (if Truthy(b) then b.value else "")
    ensures !Truthy(b) ==> r == (if Truthy(a) then a.value else "")
    ensures Truthy(a) && Truthy(b) ==> r == a.value + sep + b.value
  {
    assert [a, b][..1] == [a];
    assert [a][..0] == [];
    var ca := if Truthy(a) then [a.value] else [];
    assert Compact([a]) == ca;
    assert Compact([a, b]) == if Truthy(b) then ca + [b.value] else ca;
    assert Truthy(a) && Truthy(b) ==> Join(ca + [b.value], sep) == a.value + sep + b.value by {
      if Truthy(a) && Truthy(b) {
        assert (ca + [b.value])[..1] == [a.value];
      }
    }
    Join(Compact([a, b]), sep)
  }

  /** Joining non-empty parts gives a non-empty string exactly when there is a part. */
  lemma {:induction false} JoinEmpty(parts: seq<string>, sep: string)
    requires forall i :: 0 <= i < |parts| ==> parts[i] != ""
    ensures Join(parts, sep) == "" <==> parts == []
  {
    if |parts| > 1 {
      JoinEmpty(parts[..|parts| - 1], sep);
    }
  }

  /**
   * Folding `acc = [acc, x].filter(Boolean).join(sep)` over a list, starting
   * from the first value, joins all truthy values with `sep`, in order.
   */
  lemma {:induction false} JoinTruthyStep(xs: seq<Option<string>>, x: Option<string>, sep: string)
    ensures JoinTruthy(Some(Join(Compact(xs), sep)), x, sep) == Join(Compact(xs + [x]), sep)
  {
    var c := Compact(xs);
    assert (xs + [x])[..|xs|] == xs;
    JoinEmpty(c, sep);
    if Truthy(x) {
      assert Compact(xs + [x]) == c + [x.value];
      if c != [] {
        assert (c + [x.value])[..|c|] == c;
      }
    }
  }
}
