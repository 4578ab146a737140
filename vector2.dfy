/** The generic two-component vector of the viewer (`Vector2<T>`).

    The value type is a datatype over any `T`. The arithmetic operators are
    given for the instantiations the viewer uses (`Vector2<f64>` and
    `Vector2<f32>`), both modelled over exact `real`. The in-place
    `*Assign` operators change the `x` and `y` of a place; they are the
    methods of the class `Vector2Place`. */
module Vector2s {

  import opened Wrappers

  datatype Vector2<T> = Vector2(x: T, y: T)

  /** `Vector2::new`. */
  function New<T>(x: T, y: T): (v: Vector2<T>)
    ensures ToTuple(v) == (x, y) && ToArray(v) == [x, y]
  {
    Vector2(x, y)
  }

  /** `Default` for numeric `T`: both components are `0`, the neutral
      element of `Add` and `Sub`. */
  function Default(): (v: Vector2<real>)
    ensures v.x == 0.0 && v.y == 0.0
    ensures forall w {:trigger Add(w, v)} :: Add(w, v) == w
    ensures forall w {:trigger Sub(w, v)} :: Sub(w, v) == w
  {
    New(0.0, 0.0)
  }

  /** `a + b`, componentwise. */
  function Add(a: Vector2<real>, b: Vector2<real>): (r: Vector2<real>)
    ensures r.x - b.x == a.x && r.y - b.y == a.y
  {
    New(a.x + b.x, a.y + b.y)
  }

  /** `a - b`, componentwise. */
  function Sub(a: Vector2<real>, b: Vector2<real>): (r: Vector2<real>)
    ensures r.x + b.x == a.x && r.y + b.y == a.y
  {
    New(a.x - b.x, a.y - b.y)
  }

  /** `v * k` for a scalar `k`, componentwise. Dividing the result by the
      same non-zero `k` gives `v` back; the fact is stated for the division
      as written by the caller, so it is brought in only where a product is
      divided. */
  function Mul(v: Vector2<real>, k: real): (r: Vector2<real>)
    ensures forall j {:trigger Div(r, j)} :: j == k && j != 0.0 ==> Div(r, j) == v
  {
    var r := New(v.x * k, v.y * k);
    assert forall j {:trigger Div(r, j)} | j == k && j != 0.0 :: Div(r, j).x == v.x && Div(r, j).y == v.y;
    r
  }

  /** `v / k` for a scalar `k`, componentwise. Over `f64` a zero divisor
      yields an infinity or NaN, which `real` cannot represent, so the model
      asks for a non-zero divisor. */
  function Div(v: Vector2<real>, k: real): (r: Vector2<real>)
    requires k != 0.0
    ensures r.x * k == v.x && r.y * k == v.y
  {
    New(v.x / k, v.y / k)
  }

  /** The four operators act on each component separately, with the same
      scalar for both components of `*` and `/`. */
  lemma Componentwise(a: Vector2<real>, b: Vector2<real>, k: real)
    ensures Add(a, b).x == a.x + b.x && Add(a, b).y == a.y + b.y
    ensures Sub(a, b).x == a.x - b.x && Sub(a, b).y == a.y - b.y
    ensures Mul(a, k).x == a.x * k && Mul(a, k).y == a.y * k
    ensures k != 0.0 ==> Div(a, k).x == a.x / k && Div(a, k).y == a.y / k
  {
  }

  /** `From<Vector2<T>> for (T, T)`. */
  function ToTuple<T>(v: Vector2<T>): (t: (T, T))
    ensures FromTuple(t) == v
  {
    (v.x, v.y)
  }

  /** `From<(T, T)> for Vector2<T>`. */
  function FromTuple<T>(t: (T, T)): (v: Vector2<T>)
    ensures v.x == t.0 && v.y == t.1
  {
    Vector2(t.0, t.1)
  }

  /** `From<Vector2<T>> for [T; 2]`; the array is a sequence of length 2. */
  function ToArray<T>(v: Vector2<T>): (a: seq<T>)
    ensures |a| == 2 && FromArray(a) == v
  {
    [v.x, v.y]
  }

  /** `From<[T; 2]> for Vector2<T>`. */
  function FromArray<T>(a: seq<T>): (v: Vector2<T>)
    requires |a| == 2
    ensures v.x == a[0] && v.y == a[1]
  {
    Vector2(a[0], a[1])
  }

  /** `Display`: `"(x, y)"`, where `show` renders one component. */
  function Display<T>(v: Vector2<T>, show: T -> string): (d: string)
    ensures |d| == |show(v.x)| + |show(v.y)| + 4
    ensures d[0] == '(' && d[|d| - 1] == ')'
    ensures d[1..1 + |show(v.x)|] == show(v.x) && d[1 + |show(v.x)|..3 + |show(v.x)|] == ", "
    ensures d[3 + |show(v.x)|..|d| - 1] == show(v.y)
  {
    "(" + show(v.x) + ", " + show(v.y) + ")"
  }

  /** The index of the first comma in `s`, or `|s|` when there is none. */
  function IndexOfComma(s: string): (i: nat)
    ensures i <= |s|
    ensures i < |s| ==> s[i] == ','
    ensures forall j :: 0 <= j < i ==> s[j] != ','
  {
    if s == [] then 0
    else if s[0] == ',' then 0
    else 1 + IndexOfComma(s[1..])
  }

  /** Reads back the two component texts of a rendering `"(x, y)"`,
      splitting at the first comma. */
  function ParseDisplay(s: string): (r: Option<(string, string)>)
    ensures r.Some? ==> s == "(" + r.value.0 + ", " + r.value.1 + ")"
  {
    if |s| < 2 || s[0] != '(' || s[|s| - 1] != ')' then None
    else
      var inner := s[1..|s| - 1];
      var i := IndexOfComma(inner);
      if i + 2 <= |inner| && inner[i..i + 2] == ", " then
        assert inner == inner[..i] + ", " + inner[i + 2..];
        assert s == "(" + inner + ")";
        assert s == "(" + inner[..i] + ", " + inner[i + 2..] + ")";
        Some((inner[..i], inner[i + 2..]))
      else None
  }

  /** `Display` is read back exactly when the first component's text holds
      no comma. */
  lemma {:induction false} DisplayRoundTrip<T>(v: Vector2<T>, show: T -> string)
    requires forall k :: 0 <= k < |show(v.x)| ==> show(v.x)[k] != ','
    ensures ParseDisplay(Display(v, show)) == Some((show(v.x), show(v.y)))
  {
    var sx, sy := show(v.x), show(v.y);
    var s := Display(v, show);
    var inner := s[1..|s| - 1];
    assert inner == sx + ", " + sy;
    IndexOfCommaPrefix(sx, ", " + sy);
    assert inner[|sx|..|sx| + 2] == ", ";
    assert inner[..|sx|] == sx;
    assert inner[|sx| + 2..] == sy;
  }

  /** The first comma of `a + b` is the first comma of `b` when `a` has none. */
  lemma {:induction false} IndexOfCommaPrefix(a: string, b: string)
    requires forall k :: 0 <= k < |a| ==> a[k] != ','
    requires |b| > 0 && b[0] == ','
    ensures IndexOfComma(a + b) == |a|
  {
    if a != [] {
      assert (a + b)[1..] == a[1..] + b;
      IndexOfCommaPrefix(a[1..], b);
    }
  }

  /** Over exact numbers `(v + w) - w` is `v`, `(v - w) + w` is `v`, and
      addition commutes. */
  lemma AddSubCancel(v: Vector2<real>, w: Vector2<real>)
    ensures Sub(Add(v, w), w) == v
    ensures Add(Sub(v, w), w) == v
    ensures Add(v, w) == Add(w, v)
  {
  }

  /** Over exact numbers dividing by `k` undoes scaling by `k`, and back. */
  lemma MulDivCancel(v: Vector2<real>, k: real)
    requires k != 0.0
    ensures Div(Mul(v, k), k) == v
    ensures Mul(Div(v, k), k) == v
  {
    var m, d := Mul(v, k), Div(v, k);
    assert Div(m, k).x == v.x * k / k == v.x;
    assert Div(m, k).y == v.y * k / k == v.y;
    assert Mul(d, k).x == v.x / k * k == v.x;
    assert Mul(d, k).y == v.y / k * k == v.y;
  }

  /** Scaling distributes over addition: the fact behind pan linearity. */
  lemma MulDistributes(v: Vector2<real>, w: Vector2<real>, k: real)
    ensures Add(Mul(v, k), Mul(w, k)) == Mul(Add(v, w), k)
  {
    var l, r := Add(Mul(v, k), Mul(w, k)), Mul(Add(v, w), k);
    assert l.x == v.x * k + w.x * k == (v.x + w.x) * k == r.x;
    assert l.y == v.y * k + w.y * k == (v.y + w.y) * k == r.y;
  }

  /** Dividing by `k` distributes over addition. */
  lemma DivDistributes(v: Vector2<real>, w: Vector2<real>, k: real)
    requires k != 0.0
    ensures Add(Div(v, k), Div(w, k)) == Div(Add(v, w), k)
  {
    assert (v.x + w.x) / k == v.x / k + w.x / k;
    assert (v.y + w.y) / k == v.y / k + w.y / k;
  }

  /** A mutable place holding a `Vector2<real>`: the receiver of the
      in-place operators `+=`, `-=`, `*=` and `/=`. */
  class Vector2Place {
    var x: real
    var y: real

    function Value(): Vector2<real>
      reads this
    {
      Vector2(x, y)
    }

    constructor (v: Vector2<real>)
      ensures Value() == v
    {
      x, y := v.x, v.y;
    }

    /** `self += rhs` leaves `self + rhs`. */
    method AddAssign(rhs: Vector2<real>)
      modifies this
      ensures Value() == Add(old(Value()), rhs)
    {
      x, y := x + rhs.x, y + rhs.y;
    }

    /** `self -= rhs` leaves `self - rhs`. */
    method SubAssign(rhs: Vector2<real>)
      modifies this
      ensures Value() == Sub(old(Value()), rhs)
    {
      x, y := x - rhs.x, y - rhs.y;
    }

    /** `self *= k` leaves `self * k`. */
    method MulAssign(k: real)
      modifies this
      ensures Value() == Mul(old(Value()), k)
    {
      ghost var r := Mul(Value(), k);
      x, y := x * k, y * k;
      assert x == r.x && y == r.y;
    }

    /** `self /= k` leaves `self / k`. */
    method DivAssign(k: real)
      requires k != 0.0
      modifies this
      ensures Value() == Div(old(Value()), k)
    {
      x, y := x / k, y / k;
    }
  }
}
