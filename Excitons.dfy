/** The pure parts of the exciton plot recipe `plot_excitons`: the lookup of
    a variable under one of several names, the size of the grid of panels
    and the order in which the excitons fill it. Reading the JSON file and
    drawing are not modelled. */
module Excitons {
  import opened Wrappers
  import Sorting

  // ---------------------------------------------------------------------
  // get_var

  /** `get_var`: the value of the first of `names` that is a key of the
      dictionary; a ValueError naming all of them when none is. */
  function GetVar<V>(dict: map<string, V>, names: seq<string>): Result<V, seq<string>>
  {
    if names == [] then Err([])
    else if names[0] in dict then Ok(dict[names[0]])
    else
      match GetVar(dict, names[1..])
      case Ok(v) => Ok(v)
      case Err(_) => Err(names)
  }

  /** The lookup fails exactly when no name is present, and then reports the
      names it was given. */
  lemma {:induction false} GetVarFails<V>(dict: map<string, V>, names: seq<string>)
    ensures GetVar(dict, names).Err? <==> forall i :: 0 <= i < |names| ==> names[i] !in dict
    ensures GetVar(dict, names).Err? ==> GetVar(dict, names).error == names
    decreases |names|
  {
    if names != [] && names[0] !in dict {
      GetVarFails(dict, names[1..]);
      assert forall i :: 1 <= i < |names| ==> names[i] == names[1..][i - 1];
    }
  }

  /** On success the value is the one stored under the first name present:
      every name before it is absent. */
  lemma {:induction false} GetVarFirst<V>(dict: map<string, V>, names: seq<string>)
    requires GetVar(dict, names).Ok?
    ensures exists i :: 0 <= i < |names| && names[i] in dict
              && GetVar(dict, names).value == dict[names[i]]
              && forall j :: 0 <= j < i ==> names[j] !in dict
    decreases |names|
  {
    if names[0] !in dict {
      GetVarFirst(dict, names[1..]);
      var i :| 0 <= i < |names[1..]| && names[1..][i] in dict
               && GetVar(dict, names[1..]).value == dict[names[1..][i]]
               && forall j :: 0 <= j < i ==> names[1..][j] !in dict;
      assert names[i + 1] == names[1..][i];
      assert forall j :: 1 <= j < i + 1 ==> names[j] == names[1..][j - 1];
    } else {
      assert 0 < |names| && names[0] in dict;
    }
  }

  // ---------------------------------------------------------------------
  // The grid of panels

  /** `int(ceil(sqrt(n)))` in exact arithmetic: the least `r` with
      `r * r >= n`. */
  function CeilSqrt(n: nat): (r: nat)
    ensures r * r >= n
    ensures r == 0 || (r - 1) * (r - 1) < n
    decreases n
  {
    if n == 0 then 0
    else
      var s := CeilSqrt(n - 1);
      if s * s >= n then s
      else
        SquareStep(s);
        s + 1
  }

  lemma SquareStep(s: nat)
    ensures (s + 1) * (s + 1) == s * s + 2 * s + 1
  {
  }

  lemma MulLeft(a: nat, b: nat, c: nat)
    requires b <= c
    ensures a * b <= a * c
  {
  }

  lemma MulMono(a: nat, b: nat)
    requires a <= b
    ensures a * a <= b * b
  {
    MulLeft(a, a, b);
    MulLeft(b, a, b);
  }

  /** No smaller number squares to `n` or more. */
  lemma CeilSqrtLeast(n: nat, q: nat)
    requires q * q >= n
    ensures CeilSqrt(n) <= q
  {
    var r := CeilSqrt(n);
    if q < r {
      MulMono(q, r - 1);
    }
  }

  /** `(n + d - 1) / d` is `ceil(n / d)`: `d` rows of that many hold `n`,
      one row fewer does not. */
  lemma CeilDiv(n: nat, d: nat)
    requires d > 0
    ensures d * ((n + d - 1) / d) >= n
    ensures d * ((n + d - 1) / d - 1) < n
  {
    var q, m := (n + d - 1) / d, (n + d - 1) % d;
    assert n + d - 1 == d * q + m && m < d;
    assert d * (q - 1) == d * q - d;
  }

  /** At most as many rows as columns, since `nx * nx >= n`. */
  lemma RowsAtMostColumns(n: nat, d: nat)
    requires d > 0 && d * d >= n
    ensures (n + d - 1) / d <= d
  {
    var q := (n + d - 1) / d;
    CeilDiv(n, d);
    if q > d {
      MulLeft(d, d, q - 1);
    }
  }

  /** At most one row short of square, since `(nx - 1) * (nx - 1) < n`. */
  lemma RowsAtLeastColumnsLessOne(n: nat, d: nat)
    requires d > 0 && (d - 1) * (d - 1) < n
    ensures (n + d - 1) / d >= d - 1
  {
    var q := (n + d - 1) / d;
    CeilDiv(n, d);
    if q < d - 1 {
      MulLeft(d, q, d - 2);
    }
  }

  datatype Grid = Grid(columns: nat, rows: nat)

  datatype PlotError =
    | ZeroDivision   // no exciton: the row count divides by zero columns

  /** `nx = int(ceil(sqrt(n)))` columns and `ny = int(ceil(n / nx))` rows. */
  function GridFor(n: nat): Result<Grid, PlotError>
  {
    var nx := CeilSqrt(n);
    if nx == 0 then Err(ZeroDivision)
    else Ok(Grid(nx, (n + nx - 1) / nx))
  }

  /** The grid exists exactly when there is an exciton; it then holds every
      exciton without a row to spare, and is square or one row short of
      square. */
  lemma GridFits(n: nat)
    ensures GridFor(n).Err? <==> n == 0
    ensures GridFor(n).Ok? ==>
      var g := GridFor(n).value;
      && g.columns >= 1 && g.rows >= 1
      && g.columns * g.rows >= n
      && g.columns * (g.rows - 1) < n
      && (g.rows == g.columns || g.rows == g.columns - 1)
  {
    var nx := CeilSqrt(n);
    if n > 0 {
      CeilDiv(n, nx);
      RowsAtMostColumns(n, nx);
      RowsAtLeastColumnsLessOne(n, nx);
    }
  }

  /** `plt.subplot(ny, nx, k + 1)`: the panel of the `k`-th exciton, counted
      row by row. */
  function Panel(g: Grid, k: nat): (p: (nat, nat))
    requires g.columns > 0
  {
    (k / g.columns, k % g.columns)
  }

  /** Every exciton gets a panel of its own inside the grid, so the subplot
      index `k + 1` never exceeds `nx * ny`. */
  lemma PanelsFit(n: nat, k: nat, l: nat)
    requires GridFor(n).Ok? && k < n && l < n
    ensures var g := GridFor(n).value;
      && k + 1 <= g.columns * g.rows
      && Panel(g, k).0 < g.rows && Panel(g, k).1 < g.columns
      && (k != l ==> Panel(g, k) != Panel(g, l))
  {
    GridFits(n);
    var g := GridFor(n).value;
    RowInGrid(k, g.columns, g.rows);
    if k / g.columns == l / g.columns && k % g.columns == l % g.columns {
      DivModUnique(k, l, g.columns);
    }
  }

  lemma RowInGrid(k: nat, d: nat, rows: nat)
    requires d > 0 && k < d * rows
    ensures k / d < rows
  {
    if k / d >= rows {
      MulLeft(d, rows, k / d);
    }
  }

  lemma DivModUnique(k: nat, l: nat, d: nat)
    requires d > 0 && k / d == l / d && k % d == l % d
    ensures k == l
  {
    assert k == d * (k / d) + k % d;
    assert l == d * (l / d) + l % d;
  }

  // ---------------------------------------------------------------------
  // The order of the panels

  datatype Exciton = Exciton(energy: real, weights: seq<real>, qpts: seq<(real, real, real)>)

  predicate EnergyLeq(a: Exciton, b: Exciton)
  {
    a.energy <= b.energy
  }

  /** `sorted(excitons, key=lambda x: x['energy'])`. */
  function SortedExcitons(excitons: seq<Exciton>): seq<Exciton>
  {
    Sorting.SortBy(excitons, EnergyLeq)
  }

  /** The panels hold the same excitons, each as often as in the file, in
      non-decreasing order of energy. */
  lemma SortedExcitonsOrdered(excitons: seq<Exciton>)
    ensures var s := SortedExcitons(excitons);
      && multiset(s) == multiset(excitons)
      && forall i, j :: 0 <= i < j < |s| ==> s[i].energy <= s[j].energy
  {
    Sorting.SortBySorted(excitons, EnergyLeq);
  }

  /** Excitons of equal energy keep their order in the file: `sorted` is
      stable. */
  lemma SortedExcitonsStable(excitons: seq<Exciton>, y: Exciton)
    ensures Sorting.TiedWith(SortedExcitons(excitons), y, EnergyLeq) == Sorting.TiedWith(excitons, y, EnergyLeq)
  {
    Sorting.SortByStable(excitons, y, EnergyLeq);
  }

  /** What the panels show: the grid and the excitons in panel order. */
  function Layout(excitons: seq<Exciton>): Result<(Grid, seq<Exciton>), PlotError>
  {
    match GridFor(|excitons|)
    case Err(e) => Err(e)
    case Ok(g) => Ok((g, SortedExcitons(excitons)))
  }

  /** The layout fails only without excitons; otherwise the `k`-th exciton in
      energy order goes to its own panel of a grid large enough for all. */
  lemma LayoutPlacesAll(excitons: seq<Exciton>)
    ensures Layout(excitons).Err? <==> excitons == []
    ensures Layout(excitons).Ok? ==>
      var (g, s) := Layout(excitons).value;
      && |s| == |excitons| && multiset(s) == multiset(excitons)
      && |s| <= g.columns * g.rows
      && forall i, j :: 0 <= i < j < |s| ==> s[i].energy <= s[j].energy
  {
    GridFits(|excitons|);
    SortedExcitonsOrdered(excitons);
  }
}
