// The decisions of the layout manager: option strings and their
// conversions, dispatch on the method name, option defaulting, the grid's
// dimension choice and failure conditions, and the split of a perimeter
// layout into top, right, bottom and left runs. The floating-point
// positioning of each object is not part of this model; layouts are generic
// in the object type because only list membership and counts matter here.
module LayoutManager {
  import opened Wrappers
  import Text
  import Seqs

  // ---- option string conversions ----

  /** str2bool: only the exact text "True" is true. */
  function Str2Bool(s: string): (b: bool)
    ensures b <==> s == "True"
  {
    s == "True"
  }

  function Bool2Str(b: bool): (s: string)
    ensures s == "True" || s == "False"
  {
    if b then "True" else "False"
  }

  lemma BoolRoundTrip(b: bool)
    ensures Str2Bool(Bool2Str(b)) == b
  {
  }

  /** The characters C's isspace accepts. */
  predicate IsSpace(c: char)
  {
    c == ' ' || c == '\t' || c == '\n' || c == '\r' || c == '\U{B}' || c == '\U{C}'
  }

  function SkipSpace(s: string): (t: string)
    ensures |t| <= |s| && t == s[|s| - |t|..]
    ensures |t| > 0 ==> !IsSpace(t[0])
  {
    if |s| > 0 && IsSpace(s[0]) then SkipSpace(s[1..]) else s
  }

  /** str2int is atoi: leading white space, an optional sign, then the
      decimal digits that follow; anything after them is ignored. */
  function Str2Int(s: string): int
  {
    var t := SkipSpace(s);
    if |t| > 0 && t[0] == '-' then 0 - Text.DigitsValue(Text.LeadingDigits(t[1..]))
    else if |t| > 0 && t[0] == '+' then Text.DigitsValue(Text.LeadingDigits(t[1..]))
    else Text.DigitsValue(Text.LeadingDigits(t))
  }

  /** int2str: the stream rendering of an int, with a minus sign when negative. */
  function Int2Str(i: int): (s: string)
    ensures |s| > 0 && (s[0] == '-' || Text.IsDigit(s[0]))
  {
    if i < 0 then "-" + Text.Decimal(-i) else Text.Decimal(i)
  }

  /** str2int reads back what int2str wrote. */
  lemma IntRoundTrip(i: int)
    ensures Str2Int(Int2Str(i)) == i
  {
    if i < 0 {
      NegativeRoundTrip(i);
    } else {
      NaturalRoundTrip(i);
    }
  }

  /** The digits of a natural number read back as that number. */
  lemma NaturalRoundTrip(i: int)
    requires i >= 0
    ensures Str2Int(Int2Str(i)) == i
  {
    var d := Text.Decimal(i);
    assert Int2Str(i) == d;
    Text.DecimalValue(i);
    NoSpaceFirst(d);
    ReadDigits(d);
  }

  /** A negative number reads back through its minus sign and digits. */
  lemma NegativeRoundTrip(i: int)
    requires i < 0
    ensures Str2Int(Int2Str(i)) == i
  {
    SignedDigits(-i);
    assert Int2Str(i) == "-" + Text.Decimal(-i);
  }

  /** A minus sign before the digits of n reads back as -n. */
  lemma SignedDigits(n: nat)
    ensures Str2Int("-" + Text.Decimal(n)) == -(n as int)
  {
    var d := Text.Decimal(n);
    var s := "-" + d;
    Text.DecimalValue(n);
    NoSpaceFirst(s);
    assert s[1..] == d;
    ReadDigits(d);
  }

  lemma NoSpaceFirst(s: string)
    requires |s| > 0 && !IsSpace(s[0])
    ensures SkipSpace(s) == s
  {
  }

  lemma ReadDigits(d: string)
    requires |d| > 0 && forall i :: 0 <= i < |d| ==> Text.IsDigit(d[i])
    ensures Text.DigitsValue(Text.LeadingDigits(d)) == Text.DigitsValue(d)
  {
    Text.LeadingDigitsOfDigits(d);
  }

  // ---- dispatch ----

  datatype LayoutMethod = Perimeter | Grid | Focus | AspectFocus

  /** The lookup table of arrange, keyed by method name. */
  function Lookup(name: string): (m: Option<LayoutMethod>)
    ensures m.None? <==> name !in {"perimeter", "grid", "focus", "aspectFocus"}
  {
    if name == "perimeter" then Some(Perimeter)
    else if name == "grid" then Some(Grid)
    else if name == "focus" then Some(Focus)
    else if name == "aspectFocus" then Some(AspectFocus)
    else None
  }

  // ---- option defaulting ----

  const GridDefaults: map<string, string> :=
    map["horiz" := "True", "edge" := "False", "resize" := "True",
        "preserveAspect" := "True", "numX" := "0", "numY" := "0"]

  /** The loop that applies a table of defaults to caller options: a key the
      caller gave keeps its value, a missing key takes the default. */
  method ApplyDefaults(opts: map<string, string>, dflt: map<string, string>)
    returns (r: map<string, string>)
    ensures r.Keys == opts.Keys + dflt.Keys
    ensures forall k :: k in opts ==> r[k] == opts[k]
    ensures forall k :: k in dflt && k !in opts ==> r[k] == dflt[k]
    ensures r == Defaulted(opts, dflt)
  {
    r := opts;
    var todo := dflt.Keys;
    while todo != {}
      invariant todo <= dflt.Keys
      invariant r.Keys == opts.Keys + (dflt.Keys - todo)
      invariant forall k :: k in opts ==> r[k] == opts[k]
      invariant forall k :: k in dflt && k !in opts && k !in todo ==> r[k] == dflt[k]
      decreases todo
    {
      var k :| k in todo;
      if k !in r {
        r := r[k := dflt[k]];
      }
      todo := todo - {k};
    }
    assert forall k :: k in r ==> r[k] == Defaulted(opts, dflt)[k];
  }

  /** The options as they stand after defaulting (the reference the defaulting
      loop is checked against). */
  function Defaulted(opts: map<string, string>, dflt: map<string, string>): map<string, string>
  {
    map k | k in opts.Keys + dflt.Keys :: if k in opts then opts[k] else dflt[k]
  }

  // ---- grid dimensions ----

  /** ceil(sqrt(n)), exactly: the least k with k*k >= n. (For counts below
      2^52 the double square root rounds to the same integer.) */
  function CeilSqrt(n: nat): (k: nat)
    ensures k * k >= n
    ensures k == 0 || (k - 1) * (k - 1) < n
  {
    CeilSqrtFrom(n, 0)
  }

  function CeilSqrtFrom(n: nat, k: nat): (r: nat)
    requires k == 0 || (k - 1) * (k - 1) < n
    ensures r * r >= n
    ensures r == 0 || (r - 1) * (r - 1) < n
    decreases n - k
  {
    if k * k >= n then k
    else
      assert k <= k * k;
      CeilSqrtFrom(n, k + 1)
  }

  /** The grid used for n objects: caller dimensions, unless both are 0, in
      which case ceil(sqrt(n)) columns and as many rows as needed. */
  function GridDims(n: nat, numX: int, numY: int): (d: (int, int))
    requires n > 0
  {
    if numX == 0 && numY == 0 then
      var k := CeilSqrt(n);
      (k, RowsFor(n, k))
    else (numX, numY)
  }

  /** (unsigned int) of an int product that wrapped in 32 bits. */
  function Unsigned32(v: int): (u: int)
    ensures 0 <= u < 0x1_0000_0000
    ensures 0 <= v < 0x1_0000_0000 ==> u == v
  {
    v % 0x1_0000_0000
  }

  /** The grid holds n objects: n does not exceed the cell count as the
      source compares it. */
  predicate GridFits(n: nat, numX: int, numY: int)
    requires n > 0
  {
    var d := GridDims(n, numX, numY);
    n <= Unsigned32(d.0 * d.1)
  }

  /** The automatic grid has room for every object. */
  lemma {:induction false} AutoGridCovers(n: nat)
    requires n > 0
    ensures var d := GridDims(n, 0, 0); d.0 > 0 && d.1 > 0 && d.0 * d.1 >= n && d.1 <= d.0
  {
    var k := CeilSqrt(n);
    assert k > 0;
    RowsCover(n, k);
    RowsAtMostColumns(n, k);
  }

  /** The rows needed to lay n objects k to a row: the quotient rounded up. */
  function RowsFor(n: nat, k: nat): nat
    requires k > 0
  {
    n / k + if n % k > 0 then 1 else 0
  }

  /** k columns of RowsFor(n, k) rows hold n objects, with at least one row. */
  lemma RowsCover(n: nat, k: nat)
    requires n > 0 && k > 0
    ensures RowsFor(n, k) > 0 && k * RowsFor(n, k) >= n
  {
    var q := n / k;
    var r := n % k;
    assert n == k * q + r && 0 <= r < k;
    if r > 0 {
      assert k * (q + 1) == k * q + k;
    }
  }

  /** With k*k at least n, no more rows than columns are needed. */
  lemma RowsAtMostColumns(n: nat, k: nat)
    requires k > 0 && k * k >= n
    ensures RowsFor(n, k) <= k
  {
    var q := n / k;
    var r := n % k;
    var kq := k * q;
    assert n == kq + r && 0 <= r < k;
    if q > k {
      MulMono(k, k + 1, q);
    }
  }

  lemma MulMono(a: nat, b: int, c: int)
    requires b <= c
    ensures a * b <= a * c
  {
    assert a * c - a * b == a * (c - b);
  }

  /** The automatic grid's cell count is at most 2n. */
  lemma {:induction false} AutoGridBounded(n: nat)
    requires n > 0
    ensures var d := GridDims(n, 0, 0); d.0 * d.1 <= 2 * n
  {
    var k := CeilSqrt(n);
    assert k > 0;
    var m := RowsFor(n, k);
    RowsAtMostColumns(n, k);
    MulMono(k, m, k);
    SquareBound(n, k);
  }

  /** The least square at least n is at most 2n. */
  lemma SquareBound(n: nat, k: nat)
    requires k > 0 && (k - 1) * (k - 1) < n
    ensures k * k <= 2 * n
  {
    var j := k - 1;
    assert k * k == j * j + 2 * j + 1;
    if j >= 2 {
      MulMono(j, 2, j);
    }
  }

  /** With both dimensions left to the grid, every non-empty list of fewer
      than 2^31 objects fits. */
  lemma AutoGridFits(n: nat)
    requires 0 < n < 0x8000_0000
    ensures GridFits(n, 0, 0)
  {
    AutoGridCovers(n);
    AutoGridBounded(n);
  }

  /** Whether gridArrange accepts its input (it then positions the objects,
      which is not modelled). */
  predicate GridAccepts<T>(data: map<string, seq<T>>, opts: map<string, string>)
  {
    "objects" in data && |data["objects"]| > 0 &&
    var o := Defaulted(opts, GridDefaults);
    GridFits(|data["objects"]|, Str2Int(o["numX"]), Str2Int(o["numY"]))
  }

  /** gridArrange's guards: a missing or empty object list fails, then the
      dimensions are chosen and too many objects fail. */
  method GridArrange<T>(data: map<string, seq<T>>, opts: map<string, string>)
    returns (ok: bool)
    ensures ok == GridAccepts(data, opts)
    ensures ok ==> "objects" in data && |data["objects"]| > 0
  {
    var o := ApplyDefaults(opts, GridDefaults);
    assert "numX" in GridDefaults && "numY" in GridDefaults;
    var numX := Str2Int(o["numX"]);
    var numY := Str2Int(o["numY"]);
    ghost var given := (numX, numY);
    if "objects" !in data {
      return false;
    }
    var objects := data["objects"];
    var n := |objects|;
    if n == 0 {
      return false;
    }
    if numX == 0 && numY == 0 {
      numX := CeilSqrt(n);
      assert numX > 0 by { assert numX * numX >= n; }
      numY := RowsFor(n, numX);
    }
    assert (numX, numY) == GridDims(n, given.0, given.1);
    if n > Unsigned32(numX * numY) {
      return false;
    }
    return true;
  }

  // ---- perimeter ----

  function Floor(x: real): int { x.Floor }
  function Ceil(x: real): int { -((-x).Floor) }

  datatype Counts = Counts(top: nat, side: nat, bottom: nat)

  /** How many objects go on the top, on each side and on the bottom. The
      top ratio is the inner width over inner width plus outer height; the
      side ratio is the rest. */
  function PerimeterCounts(n: nat, topRatio: real): (c: Counts)
    requires 0.0 <= topRatio <= 1.0
    ensures n == 1 ==> c == Counts(1, 0, 0)
    ensures n != 1 ==> c.bottom == if n - c.top - 2 * c.side > 0 then n - c.top - 2 * c.side else 0
    ensures c.top + c.side + c.bottom <= n
  {
    if n == 1 then Counts(1, 0, 0)
    else
      var top := Floor(topRatio * n as real / 2.0);
      var side := Ceil((1.0 - topRatio) * n as real / 2.0);
      CountsBounded(n, topRatio);
      var bottom := if n - top - 2 * side > 0 then n - top - 2 * side else 0;
      Counts(top, side, bottom)
  }

  lemma CountsBounded(n: nat, topRatio: real)
    requires 0.0 <= topRatio <= 1.0 && n != 1
    ensures var top := Floor(topRatio * n as real / 2.0);
            var side := Ceil((1.0 - topRatio) * n as real / 2.0);
            0 <= top && 0 <= side && top + side <= n
  {
    var a := topRatio * n as real / 2.0;
    var b := (1.0 - topRatio) * n as real / 2.0;
    assert a + b == n as real / 2.0;
    assert 0.0 <= a && 0.0 <= b;
    var top := Floor(a);
    var side := Ceil(b);
    assert top as real <= a;
    assert side as real < b + 1.0;
  }

  datatype Slices<T> = Slices(top: seq<T>, right: seq<T>, bottom: seq<T>, left: seq<T>)

  /** The four runs the perimeter layout hands to the grid: top and right in
      list order, bottom and left taken from the end backwards. */
  function Split<T>(objects: seq<T>, c: Counts): Slices<T>
    requires c.top + c.side + c.bottom <= |objects|
  {
    var a := c.top;
    var b := c.top + c.side;
    var d := c.top + c.side + c.bottom;
    Slices(objects[..a], objects[a..b], Seqs.Reverse(objects[b..d]), Seqs.Reverse(objects[d..]))
  }

  /** Every object lands in exactly one run: reading the runs around the
      perimeter (bottom and left turned back) gives the list itself. */
  lemma SplitPartitions<T>(objects: seq<T>, c: Counts)
    requires c.top + c.side + c.bottom <= |objects|
    ensures var s := Split(objects, c);
            s.top + s.right + Seqs.Reverse(s.bottom) + Seqs.Reverse(s.left) == objects
  {
    var a := c.top;
    var b := c.top + c.side;
    var d := c.top + c.side + c.bottom;
    var s := Split(objects, c);
    var p1, p2, p3, p4 := objects[..a], objects[a..b], objects[b..d], objects[d..];
    assert s.top == p1 && s.right == p2;
    assert s.bottom == Seqs.Reverse(p3) && s.left == Seqs.Reverse(p4);
    Seqs.ReverseTwice(p3);
    Seqs.ReverseTwice(p4);
    assert objects == p1 + p2 + p3 + p4;
  }

  /** Each run fits the one-row or one-column grid it is given. */
  lemma PerimeterRunsFit(n: nat, topRatio: real)
    requires 0.0 <= topRatio <= 1.0
    ensures var c := PerimeterCounts(n, topRatio);
            n - c.top - c.side - c.bottom <= c.side
  {
  }

  /** perimeterArrange: without an "objects" list it fails; otherwise it
      splits the list into its four runs and reports success whatever the
      grids do with them. */
  method PerimeterArrange<T>(data: map<string, seq<T>>, topRatio: real)
    returns (ok: bool, runs: Slices<T>)
    requires 0.0 <= topRatio <= 1.0
    ensures ok <==> "objects" in data
    ensures ok ==> runs == Split(data["objects"], PerimeterCounts(|data["objects"]|, topRatio))
  {
    if "objects" !in data {
      return false, Slices([], [], [], []);
    }
    var objects := data["objects"];
    var c := PerimeterCounts(|objects|, topRatio);
    var end := c.top + c.side + c.bottom;
    var topObjs := CopyRun(objects, 0, c.top);
    var rightObjs := CopyRun(objects, c.top, c.top + c.side);
    var bottomObjs := ReversedRun(objects, c.top + c.side, end);
    var leftObjs := ReversedRun(objects, end, |objects|);
    assert objects[..c.top] == objects[0..c.top];
    assert objects[end..] == objects[end..|objects|];
    return true, Slices(topObjs, rightObjs, bottomObjs, leftObjs);
  }

  /** The loop that collects a run in list order. */
  method CopyRun<T>(objects: seq<T>, from: nat, to: nat) returns (run: seq<T>)
    requires from <= to <= |objects|
    ensures run == objects[from..to]
  {
    run := [];
    var i := from;
    while i < to
      invariant from <= i <= to
      invariant run == objects[from..i]
    {
      run := run + [objects[i]];
      i := i + 1;
    }
  }

  /** The loop that collects a run from its end backwards. */
  method ReversedRun<T>(objects: seq<T>, from: nat, to: nat) returns (run: seq<T>)
    requires from <= to <= |objects|
    ensures run == Seqs.Reverse(objects[from..to])
  {
    run := [];
    var i := to - 1;
    while i >= from
      invariant from - 1 <= i < to
      invariant run == Seqs.Reverse(objects[i + 1..to])
    {
      assert objects[i..to][1..] == objects[i + 1..to];
      assert Seqs.Reverse(objects[i..to]) == Seqs.Reverse(objects[i + 1..to]) + [objects[i]];
      run := run + [objects[i]];
      i := i - 1;
    }
  }

  // ---- focus layouts ----

  /** The focus layout's success: both lists given, and the grid of inner
      objects accepts them (the perimeter part always succeeds). */
  predicate FocusAccepts<T>(data: map<string, seq<T>>)
  {
    "outers" in data && "inners" in data && |data["inners"]| > 0 &&
    GridFits(|data["inners"]|, 0, 0)
  }

  lemma ZeroReadsZero()
    ensures Str2Int("0") == 0
  {
    NoSpaceFirst("0");
    ReadDigits("0");
    assert "0"[..0] == "";
    assert Text.DigitsValue("0") == 0;
  }

  /** The grid options focus passes leave both dimensions to the grid. */
  lemma FocusGridIsAutomatic<T>(inners: seq<T>)
    ensures GridAccepts(map["objects" := inners], map["horiz" := "True", "edge" := "False", "resize" := "True"])
            <==> |inners| > 0 && GridFits(|inners|, 0, 0)
  {
    var g := map["horiz" := "True", "edge" := "False", "resize" := "True"];
    var o := Defaulted(g, GridDefaults);
    assert "numX" !in g && "numY" !in g;
    assert "numX" in GridDefaults && "numY" in GridDefaults;
    assert o["numX"] == GridDefaults["numX"] == "0";
    assert o["numY"] == GridDefaults["numY"] == "0";
    ZeroReadsZero();
  }

  /** focus: the inner objects go to an automatic grid, the outer ones to the
      perimeter; the result is the conjunction of the two. */
  method FocusArrange<T>(data: map<string, seq<T>>, opts: map<string, string>, topRatio: real)
    returns (ok: bool)
    requires 0.0 <= topRatio <= 1.0
    ensures ok == FocusAccepts(data)
  {
    if "outers" !in data || "inners" !in data {
      return false;
    }
    var outers := data["outers"];
    var inners := data["inners"];
    var focusOpts := ApplyDefaults(opts, map["scaleX" := "0.65", "scaleY" := "0.6"]);
    var gridOpts := map["horiz" := "True", "edge" := "False", "resize" := "True"];
    var gridRes := GridArrange(map["objects" := inners], gridOpts);
    FocusGridIsAutomatic(inners);
    var perimRes := true;
    if |outers| != 0 {
      var runs;
      perimRes, runs := PerimeterArrange(map["objects" := outers], topRatio);
    }
    return gridRes && perimRes;
  }

  /** aspectFocus: the same guards, its own defaults for the inner area's
      aspect and scale, then focus. */
  method AspectFocusArrange<T>(data: map<string, seq<T>>, opts: map<string, string>, topRatio: real)
    returns (ok: bool)
    requires 0.0 <= topRatio <= 1.0
    ensures ok == FocusAccepts(data)
  {
    if "outers" !in data || "inners" !in data {
      return false;
    }
    var o := ApplyDefaults(opts, map["aspect" := "1.5555", "scale" := "0.65"]);
    ok := FocusArrange(data, o, topRatio);
  }

  /** arrange: dispatch on the method name; an unknown name fails without
      touching any object. */
  method Arrange<T>(name: string, data: map<string, seq<T>>, opts: map<string, string>, topRatio: real)
    returns (ok: bool)
    requires 0.0 <= topRatio <= 1.0
    ensures Lookup(name).None? ==> !ok
    ensures ok == match Lookup(name)
                  case None => false
                  case Some(Perimeter) => "objects" in data
                  case Some(Grid) => GridAccepts(data, opts)
                  case Some(_) => FocusAccepts(data)
  {
    var m := Lookup(name);
    match m {
      case None => ok := false;
      case Some(Perimeter) =>
        var runs;
        ok, runs := PerimeterArrange(data, topRatio);
      case Some(Grid) => ok := GridArrange(data, opts);
      case Some(Focus) => ok := FocusArrange(data, opts, topRatio);
      case Some(AspectFocus) => ok := AspectFocusArrange(data, opts, topRatio);
    }
  }
}
