/** The in-memory part of the quasiparticle database recipes `merge_qp` and
    `add_qp`: the tables read from several databases are merged into the
    tables, parameters and description of one output database. Reading and
    writing the netCDF files is not modelled; a database is the value of the
    variables the recipes read from it. */
module QpDatabases {
  import opened Wrappers
  import Sorting
  import Text

  /** A row of `QP_table`: the two band indices and the k-point index. */
  datatype QpKey = QpKey(n1: int, n2: int, k: int)

  /** A row of one slice of `QP_E_Eo_Z`: the corrected energy, the bare
      energy and the renormalization factor. */
  datatype QpRow = QpRow(e: real, eo: real, z: real)

  datatype KPoint = KPoint(x: real, y: real, z: real)

  /** `PARS`: its entries 1, 2 and 4 are the number of k-points, the number
      of quasiparticle rows and the number of description strings. */
  datatype Pars = Pars(p0: real, nkpoints: int, nqps: int, p3: real, nstrings: int)

  /** The variables of one input database. `eReal` and `eImag` are the two
      slices `QP_E_Eo_Z[0]` and `QP_E_Eo_Z[1]`. */
  datatype QpFile = QpFile(
    name: string,
    pars: Pars,
    table: seq<QpKey>,
    kpts: seq<KPoint>,
    eReal: seq<QpRow>,
    eImag: seq<QpRow>)

  /** The variables of the output database that the recipes compute:
      `description` is written into the description string number
      `descriptionSlot`. */
  datatype QpDatabase = QpDatabase(
    pars: Pars,
    table: seq<QpKey>,
    kpts: seq<KPoint>,
    eReal: seq<QpRow>,
    eImag: seq<QpRow>,
    description: string,
    descriptionSlot: int)

  datatype QpError =
    | NoFiles                    // no input database
    | KpointMismatch(name: string) // add_qp: a database with another number of k-points
    | EmptyTable                 // min or max of an empty column
    | NegativeDimension          // np.zeros with a negative number of rows
    | KpointOutOfRange(k: int)   // a k index outside a k-point table
    | UnknownKey(key: QpKey)     // add_qp: an imaginary correction for a key never read

  const Origin := KPoint(0.0, 0.0, 0.0)

  // ---------------------------------------------------------------------
  // The description string

  function MinOf(s: seq<int>): (m: int)
    requires |s| > 0
    ensures m in s && forall x :: x in s ==> m <= x
  {
    if |s| == 1 then s[0]
    else
      var rest := MinOf(s[..|s| - 1]);
      assert forall x :: x in s ==> x in s[..|s| - 1] || x == s[|s| - 1];
      if s[|s| - 1] < rest then s[|s| - 1] else rest
  }

  function MaxOf(s: seq<int>): (m: int)
    requires |s| > 0
    ensures m in s && forall x :: x in s ==> x <= m
  {
    if |s| == 1 then s[0]
    else
      var rest := MaxOf(s[..|s| - 1]);
      assert forall x :: x in s ==> x in s[..|s| - 1] || x == s[|s| - 1];
      if s[|s| - 1] > rest then s[|s| - 1] else rest
  }

  /** The k-point column and the second band column of a table. */
  function KColumn(table: seq<QpKey>): (c: seq<int>)
    ensures |c| == |table| && forall i :: 0 <= i < |table| ==> c[i] == table[i].k
  {
    seq(|table|, i requires 0 <= i < |table| => table[i].k)
  }

  function BandColumn(table: seq<QpKey>): (c: seq<int>)
    ensures |c| == |table| && forall i :: 0 <= i < |table| ==> c[i] == table[i].n2
  {
    seq(|table|, i requires 0 <= i < |table| => table[i].n2)
  }

  /** `"QP @ K %03d - %03d : b %03d - %03d"` over the extreme k-points and
      bands of the table, as stored (with a leading blank). */
  function Description(table: seq<QpKey>): string
    requires |table| > 0
  {
    " QP @ K " + Text.FormatInt(MinOf(KColumn(table)), 3) + " - " + Text.FormatInt(MaxOf(KColumn(table)), 3)
      + " : b " + Text.FormatInt(MinOf(BandColumn(table)), 3) + " - " + Text.FormatInt(MaxOf(BandColumn(table)), 3)
  }

  /** The four numbers of the description are the extreme k-point and band
      indices of the table, and can be read back from it. */
  lemma DescriptionReadsBack(table: seq<QpKey>)
    requires |table| > 0
    ensures var kmin, kmax := MinOf(KColumn(table)), MaxOf(KColumn(table));
      var bmin, bmax := MinOf(BandColumn(table)), MaxOf(BandColumn(table));
      && Description(table) == " QP @ K " + Text.FormatInt(kmin, 3) + " - " + Text.FormatInt(kmax, 3)
                               + " : b " + Text.FormatInt(bmin, 3) + " - " + Text.FormatInt(bmax, 3)
      && Text.ParseInt(Text.FormatInt(kmin, 3)) == kmin && Text.ParseInt(Text.FormatInt(kmax, 3)) == kmax
      && Text.ParseInt(Text.FormatInt(bmin, 3)) == bmin && Text.ParseInt(Text.FormatInt(bmax, 3)) == bmax
      && (forall i :: 0 <= i < |table| ==> kmin <= table[i].k <= kmax && bmin <= table[i].n2 <= bmax)
      && (exists i :: 0 <= i < |table| && table[i].k == kmin)
      && (exists i :: 0 <= i < |table| && table[i].k == kmax)
      && (exists i :: 0 <= i < |table| && table[i].n2 == bmin)
      && (exists i :: 0 <= i < |table| && table[i].n2 == bmax)
  {
    var ks, bs := KColumn(table), BandColumn(table);
    Text.FormatIntRoundTrip(MinOf(ks), 3);
    Text.FormatIntRoundTrip(MaxOf(ks), 3);
    Text.FormatIntRoundTrip(MinOf(bs), 3);
    Text.FormatIntRoundTrip(MaxOf(bs), 3);
    forall i | 0 <= i < |table|
      ensures MinOf(ks) <= table[i].k <= MaxOf(ks) && MinOf(bs) <= table[i].n2 <= MaxOf(bs)
    {
      assert ks[i] in ks && bs[i] in bs;
    }
  }

  // ---------------------------------------------------------------------
  // add_qp: the pairs read from the databases

  /** Python's `zip(table, rows)`: stops at the shorter of the two. */
  function Zip(table: seq<QpKey>, rows: seq<QpRow>): (z: seq<(QpKey, QpRow)>)
    ensures |z| == (if |table| <= |rows| then |table| else |rows|)
    ensures forall i :: 0 <= i < |z| ==> z[i] == (table[i], rows[i])
  {
    var n := if |table| <= |rows| then |table| else |rows|;
    seq(n, i requires 0 <= i < n => (table[i], rows[i]))
  }

  /** The (key, row) pairs of the databases in order, from the real slice or
      from the imaginary one. */
  function Pairs(files: seq<QpFile>, imag: bool): seq<(QpKey, QpRow)>
  {
    if files == [] then []
    else
      var f := files[|files| - 1];
      Pairs(files[..|files| - 1], imag) + Zip(f.table, if imag then f.eImag else f.eReal)
  }

  lemma PairsSnoc(files: seq<QpFile>, i: nat, imag: bool)
    requires i < |files|
    ensures Pairs(files[..i + 1], imag)
         == Pairs(files[..i], imag) + Zip(files[i].table, if imag then files[i].eImag else files[i].eReal)
  {
    assert files[..i + 1][..i] == files[..i];
  }

  function Keys(ps: seq<(QpKey, QpRow)>): (ks: seq<QpKey>)
    ensures |ks| == |ps| && forall i :: 0 <= i < |ps| ==> ks[i] == ps[i].0
  {
    seq(|ps|, i requires 0 <= i < |ps| => ps[i].0)
  }

  predicate Distinct<T(==)>(s: seq<T>)
  {
    forall i, j :: 0 <= i < j < |s| ==> s[i] != s[j]
  }

  /** The keys of a Python dictionary in insertion order: each key once, where
      it was first assigned. */
  function InsertionOrder(ks: seq<QpKey>): (r: seq<QpKey>)
    ensures Distinct(r)
    ensures forall x :: x in r <==> x in ks
  {
    if ks == [] then []
    else
      var prev := InsertionOrder(ks[..|ks| - 1]);
      assert forall x :: x in ks <==> x in ks[..|ks| - 1] || x == ks[|ks| - 1];
      if ks[|ks| - 1] in prev then prev else prev + [ks[|ks| - 1]]
  }

  /** The value a dictionary holds after `d[key] = row.eo` for every pair in
      turn. */
  function LastEo(ps: seq<(QpKey, QpRow)>): (d: map<QpKey, real>)
    ensures forall x :: x in d <==> x in Keys(ps)
  {
    if ps == [] then map[]
    else
      var last := ps[|ps| - 1];
      assert forall x :: x in Keys(ps) <==> x in Keys(ps[..|ps| - 1]) || x == last.0 by {
        assert Keys(ps) == Keys(ps[..|ps| - 1]) + [last.0];
      }
      LastEo(ps[..|ps| - 1])[last.0 := last.1.eo]
  }

  /** `v` is the bare energy of the last pair that lists `x`. */
  ghost predicate LastWritten(ps: seq<(QpKey, QpRow)>, x: QpKey, v: real)
  {
    exists i :: 0 <= i < |ps| && ps[i].0 == x && ps[i].1.eo == v
                && forall j :: i < j < |ps| ==> ps[j].0 != x
  }

  /** Each key holds the bare energy of the last pair that lists it. */
  lemma {:induction false} LastEoIsLastWriter(ps: seq<(QpKey, QpRow)>, x: QpKey)
    requires x in Keys(ps)
    ensures LastWritten(ps, x, LastEo(ps)[x])
  {
    var n := |ps| - 1;
    if ps[n].0 != x {
      assert Keys(ps) == Keys(ps[..n]) + [ps[n].0];
      assert x in Keys(ps[..n]);
      LastEoIsLastWriter(ps[..n], x);
      assert LastEo(ps)[x] == LastEo(ps[..n])[x];
      var i :| 0 <= i < n && ps[..n][i].0 == x && ps[..n][i].1.eo == LastEo(ps[..n])[x]
               && forall j :: i < j < n ==> ps[..n][j].0 != x;
      assert ps[i] == ps[..n][i];
      assert forall j :: i < j < n ==> ps[j] == ps[..n][j];
      assert forall j :: i < j < |ps| ==> ps[j].0 != x;
    } else {
      assert ps[n].0 == x && ps[n].1.eo == LastEo(ps)[x];
    }
  }

  /** `E - Eo` summed over the pairs that list `x`. */
  function Correction(ps: seq<(QpKey, QpRow)>, x: QpKey): real
  {
    if ps == [] then 0.0
    else
      var last := ps[|ps| - 1];
      Correction(ps[..|ps| - 1], x) + (if last.0 == x then last.1.e - last.1.eo else 0.0)
  }

  /** Corrections add up over consecutive databases. */
  lemma {:induction false} CorrectionAppend(a: seq<(QpKey, QpRow)>, b: seq<(QpKey, QpRow)>, x: QpKey)
    ensures Correction(a + b, x) == Correction(a, x) + Correction(b, x)
    decreases |b|
  {
    if b == [] {
      assert a + b == a;
    } else {
      assert (a + b)[..|a + b| - 1] == a + b[..|b| - 1];
      assert (a + b)[|a + b| - 1] == b[|b| - 1];
      CorrectionAppend(a, b[..|b| - 1], x);
    }
  }

  /** A key that no pair lists gets no correction. */
  lemma {:induction false} CorrectionOfAbsentKey(ps: seq<(QpKey, QpRow)>, x: QpKey)
    requires x !in Keys(ps)
    ensures Correction(ps, x) == 0.0
  {
    if ps != [] {
      assert Keys(ps[..|ps| - 1]) == Keys(ps)[..|ps| - 1];
      CorrectionOfAbsentKey(ps[..|ps| - 1], x);
    }
  }

  /** The name of the first database whose number of k-points is not `nk`. */
  function FirstMismatch(files: seq<QpFile>, nk: int): (r: Option<string>)
    ensures r.None? <==> forall i :: 0 <= i < |files| ==> files[i].pars.nkpoints == nk
    ensures r.Some? ==> exists i :: 0 <= i < |files| && files[i].pars.nkpoints != nk && files[i].name == r.value
                                    && forall j :: 0 <= j < i ==> files[j].pars.nkpoints == nk
  {
    if files == [] then None
    else if files[0].pars.nkpoints != nk then Some(files[0].name)
    else
      var r := FirstMismatch(files[1..], nk);
      assert forall i :: 1 <= i < |files| ==> files[i] == files[1..][i - 1];
      r
  }

  lemma FirstMismatchAt(files: seq<QpFile>, nk: int, i: nat)
    requires i < |files| && files[i].pars.nkpoints != nk
    requires forall j :: 0 <= j < i ==> files[j].pars.nkpoints == nk
    ensures FirstMismatch(files, nk) == Some(files[i].name)
  {
    var r := FirstMismatch(files, nk);
    var k :| 0 <= k < |files| && files[k].pars.nkpoints != nk && files[k].name == r.value
             && forall j :: 0 <= j < k ==> files[j].pars.nkpoints == nk;
    assert k == i;
  }

  /** `itemgetter(2, 1)`: by k-point, then by second band. */
  predicate KeyLeq(a: QpKey, b: QpKey)
  {
    a.k < b.k || (a.k == b.k && a.n2 <= b.n2)
  }

  lemma KeyLeqIsTotalPreorder()
    ensures Sorting.Total(KeyLeq) && Sorting.Transitive(KeyLeq)
  {
  }

  /** The real slice of the output: the corrected energy (bare energy plus the
      corrections of the `add` databases minus those of the `subtract` ones),
      the bare energy and Z = 1. */
  function RealColumn(keys: seq<QpKey>, eo: map<QpKey, real>, add: seq<QpFile>, sub: seq<QpFile>): (rows: seq<QpRow>)
    requires forall x :: x in keys ==> x in eo
    ensures |rows| == |keys|
  {
    seq(|keys|, i requires 0 <= i < |keys| =>
      QpRow(eo[keys[i]] + Correction(Pairs(add, false), keys[i]) - Correction(Pairs(sub, false), keys[i]),
            eo[keys[i]], 1.0))
  }

  /** The imaginary slice of the output: the corrections of the `addimg`
      databases, a zero bare energy and Z = 1. */
  function ImagColumn(keys: seq<QpKey>, addimg: seq<QpFile>): (rows: seq<QpRow>)
    ensures |rows| == |keys|
  {
    seq(|keys|, i requires 0 <= i < |keys| => QpRow(Correction(Pairs(addimg, true), keys[i]), 0.0, 1.0))
  }

  /** `d[key] += E - Eo` (or `-=`) for every pair in turn; a key the
      dictionary does not hold raises a KeyError. */
  function Accumulated(d: map<QpKey, real>, ps: seq<(QpKey, QpRow)>, subtract: bool): Result<map<QpKey, real>, QpError>
  {
    if ps == [] then Ok(d)
    else
      var p := ps[|ps| - 1];
      match Accumulated(d, ps[..|ps| - 1], subtract)
      case Err(e) => Err(e)
      case Ok(m) =>
        if p.0 !in m then Err(UnknownKey(p.0))
        else Ok(m[p.0 := if subtract then m[p.0] - (p.1.e - p.1.eo) else m[p.0] + (p.1.e - p.1.eo)])
  }

  /** The accumulation fails exactly when some pair's key is missing from the
      dictionary, and then names the first such key; otherwise every key holds
      its initial value plus (or minus) its total correction. */
  lemma {:induction false} AccumulatedMeaning(d: map<QpKey, real>, ps: seq<(QpKey, QpRow)>, subtract: bool)
    ensures var r := Accumulated(d, ps, subtract);
      && (r.Ok? <==> forall i :: 0 <= i < |ps| ==> ps[i].0 in d)
      && (r.Err? ==> exists i :: 0 <= i < |ps| && ps[i].0 !in d && r.error == UnknownKey(ps[i].0)
                                 && forall j :: 0 <= j < i ==> ps[j].0 in d)
      && (r.Ok? ==> r.value.Keys == d.Keys
                    && forall x :: x in d ==>
                         r.value[x] == if subtract then d[x] - Correction(ps, x) else d[x] + Correction(ps, x))
  {
    if ps != [] {
      var n := |ps| - 1;
      AccumulatedMeaning(d, ps[..n], subtract);
      assert forall i :: 0 <= i < n ==> ps[..n][i] == ps[i];
      var prev := Accumulated(d, ps[..n], subtract);
      if prev.Err? {
        var i :| 0 <= i < n && ps[..n][i].0 !in d && prev.error == UnknownKey(ps[..n][i].0)
                 && forall j :: 0 <= j < i ==> ps[..n][j].0 in d;
        assert ps[i].0 !in d;
      }
    }
  }

  /** A dictionary with the keys of `d`, every one holding zero. */
  function ZeroMap(d: map<QpKey, real>): (z: map<QpKey, real>)
    ensures z.Keys == d.Keys && forall x :: x in z ==> z[x] == 0.0
  {
    map x | x in d :: 0.0
  }

  /** Once a key is missing the accumulation has failed for good. */
  lemma {:induction false} AccumulatedErrPersists(d: map<QpKey, real>, ps: seq<(QpKey, QpRow)>,
                                                 qs: seq<(QpKey, QpRow)>, subtract: bool)
    requires Accumulated(d, ps, subtract).Err?
    ensures Accumulated(d, ps + qs, subtract) == Accumulated(d, ps, subtract)
    decreases |qs|
  {
    if qs == [] {
      assert ps + qs == ps;
    } else {
      var n := |qs| - 1;
      assert (ps + qs)[..|ps + qs| - 1] == ps + qs[..n];
      AccumulatedErrPersists(d, ps, qs[..n], subtract);
    }
  }

  /** The pairs of database `i`. */
  function FilePairs(f: QpFile, imag: bool): seq<(QpKey, QpRow)>
  {
    Zip(f.table, if imag then f.eImag else f.eReal)
  }

  lemma AppendNext<T>(a: seq<T>, z: seq<T>, j: nat)
    requires j < |z|
    ensures a + z[..j + 1] == (a + z[..j]) + [z[j]]
  {
    assert z[..j + 1] == z[..j] + [z[j]];
  }

  /** One more `+=` (or `-=`) on an accumulation that has not failed. */
  lemma AccumulatedStep(d: map<QpKey, real>, ps: seq<(QpKey, QpRow)>, p: (QpKey, QpRow), subtract: bool,
                        m: map<QpKey, real>)
    requires Accumulated(d, ps, subtract) == Ok(m)
    ensures Accumulated(d, ps + [p], subtract)
         == if p.0 !in m then Err(UnknownKey(p.0))
            else Ok(m[p.0 := if subtract then m[p.0] - (p.1.e - p.1.eo) else m[p.0] + (p.1.e - p.1.eo)])
  {
    assert (ps + [p])[..|ps|] == ps;
  }

  /** `d[key] += E - Eo` (or `-=`) over the pairs of one database, on a
      dictionary that already holds the accumulation over `done`. */
  method AccumulateFile(d: map<QpKey, real>, ghost done: seq<(QpKey, QpRow)>, m0: map<QpKey, real>,
                        z: seq<(QpKey, QpRow)>, subtract: bool)
    returns (r: Result<map<QpKey, real>, QpError>)
    requires Accumulated(d, done, subtract) == Ok(m0)
    ensures r == Accumulated(d, done + z, subtract)
  {
    var m := m0;
    assert done + z[..0] == done;
    for j := 0 to |z|
      invariant Accumulated(d, done + z[..j], subtract) == Ok(m)
    {
      var (key, row) := z[j];
      AppendNext(done, z, j);
      AccumulatedStep(d, done + z[..j], z[j], subtract, m);
      if key !in m {
        assert done + z == (done + z[..j + 1]) + z[j + 1..];
        AccumulatedErrPersists(d, done + z[..j + 1], z[j + 1..], subtract);
        return Err(UnknownKey(key));
      }
      m := m[key := if subtract then m[key] - (row.e - row.eo) else m[key] + (row.e - row.eo)];
    }
    assert z[..|z|] == z;
    return Ok(m);
  }

  lemma AccumulatedErrOfPrefix(d: map<QpKey, real>, files: seq<QpFile>, i: nat, imag: bool, subtract: bool)
    requires i <= |files|
    requires Accumulated(d, Pairs(files[..i], imag), subtract).Err?
    ensures Accumulated(d, Pairs(files, imag), subtract) == Accumulated(d, Pairs(files[..i], imag), subtract)
  {
    assert files == files[..i] + files[i..];
    PairsAppend(files[..i], files[i..], imag);
    AccumulatedErrPersists(d, Pairs(files[..i], imag), Pairs(files[i..], imag), subtract);
  }

  /** `d[key] += E - Eo` (or `-=`) over the pairs of the databases, file by
      file, as the `add`, `subtract` and `addimg` loops of add_qp do. */
  method Accumulate(d: map<QpKey, real>, files: seq<QpFile>, imag: bool, subtract: bool)
    returns (r: Result<map<QpKey, real>, QpError>)
    ensures r == Accumulated(d, Pairs(files, imag), subtract)
  {
    var m := d;
    for i := 0 to |files|
      invariant Accumulated(d, Pairs(files[..i], imag), subtract) == Ok(m)
    {
      var z := FilePairs(files[i], imag);
      r := AccumulateFile(d, Pairs(files[..i], imag), m, z, subtract);
      PairsSnoc(files, i, imag);
      if r.Err? {
        AccumulatedErrOfPrefix(d, files, i + 1, imag, subtract);
        return;
      }
      m := r.value;
    }
    assert files[..|files|] == files;
    return Ok(m);
  }

  /** One more pair read into the dictionaries of add_qp. */
  lemma ReadStep(ps: seq<(QpKey, QpRow)>, p: (QpKey, QpRow))
    ensures Keys(ps + [p]) == Keys(ps) + [p.0]
    ensures LastEo(ps + [p]) == LastEo(ps)[p.0 := p.1.eo]
    ensures InsertionOrder(Keys(ps + [p]))
         == if p.0 in LastEo(ps) then InsertionOrder(Keys(ps)) else InsertionOrder(Keys(ps)) + [p.0]
  {
    assert (ps + [p])[..|ps|] == ps;
    assert Keys(ps + [p])[..|ps|] == Keys(ps);
  }

  lemma ZeroMapUpdate(d: map<QpKey, real>, x: QpKey, v: real)
    ensures ZeroMap(d[x := v]) == ZeroMap(d)[x := 0.0]
  {
    var a, b := ZeroMap(d[x := v]), ZeroMap(d)[x := 0.0];
    assert a.Keys == b.Keys;
    assert forall y :: y in a ==> a[y] == b[y];
  }

  /** The pair loop of one database: `qpdic[key] = Eo` and `qpdici[key] = 0`;
      `order` lists the keys of `qpdic` in insertion order. */
  method ReadFile(qpdic0: map<QpKey, real>, qpdici0: map<QpKey, real>, order0: seq<QpKey>,
                  ghost done: seq<(QpKey, QpRow)>, z: seq<(QpKey, QpRow)>)
    returns (qpdic: map<QpKey, real>, qpdici: map<QpKey, real>, order: seq<QpKey>)
    requires qpdic0 == LastEo(done) && qpdici0 == ZeroMap(qpdic0) && order0 == InsertionOrder(Keys(done))
    ensures qpdic == LastEo(done + z) && qpdici == ZeroMap(qpdic) && order == InsertionOrder(Keys(done + z))
  {
    qpdic, qpdici, order := qpdic0, qpdici0, order0;
    assert done + z[..0] == done;
    for j := 0 to |z|
      invariant qpdic == LastEo(done + z[..j]) && qpdici == ZeroMap(qpdic)
      invariant order == InsertionOrder(Keys(done + z[..j]))
    {
      var (key, row) := z[j];
      AppendNext(done, z, j);
      ReadStep(done + z[..j], z[j]);
      ZeroMapUpdate(qpdic, key, row.eo);
      if key !in qpdic {
        order := order + [key];
      }
      qpdic := qpdic[key := row.eo];
      qpdici := qpdici[key := 0.0];
    }
    assert z[..|z|] == z;
  }

  /** The reading loop of add_qp: each database in turn must have as many
      k-points as the first; its pairs are read into the dictionaries. */
  method ReadDatabases(files: seq<QpFile>)
    returns (qpdic: map<QpKey, real>, qpdici: map<QpKey, real>, order: seq<QpKey>, mismatch: Option<string>)
    requires files != []
    ensures mismatch == FirstMismatch(files, files[0].pars.nkpoints)
    ensures mismatch.None? ==> var all := Pairs(files, false);
      qpdic == LastEo(all) && qpdici == ZeroMap(qpdic) && order == InsertionOrder(Keys(all))
  {
    var nk := files[0].pars.nkpoints;
    qpdic, qpdici, order := map[], map[], [];
    for i := 0 to |files|
      invariant forall j :: 0 <= j < i ==> files[j].pars.nkpoints == nk
      invariant qpdic == LastEo(Pairs(files[..i], false)) && qpdici == ZeroMap(qpdic)
      invariant order == InsertionOrder(Keys(Pairs(files[..i], false)))
    {
      if files[i].pars.nkpoints != nk {
        FirstMismatchAt(files, nk, i);
        return qpdic, qpdici, order, Some(files[i].name);
      }
      PairsSnoc(files, i, false);
      qpdic, qpdici, order := ReadFile(qpdic, qpdici, order, Pairs(files[..i], false), FilePairs(files[i], false));
      assert forall j :: 0 <= j <= i ==> files[j].pars.nkpoints == nk;
    }
    assert files[..|files|] == files;
    mismatch := None;
  }

  /** add_qp: the database that sums the corrections of several others. */
  function AddQpSpec(add: seq<QpFile>, sub: seq<QpFile>, addimg: seq<QpFile>): Result<QpDatabase, QpError>
  {
    var files := add + sub + addimg;
    if files == [] then Err(NoFiles)
    else
      match FirstMismatch(files, files[0].pars.nkpoints)
      case Some(name) => Err(KpointMismatch(name))
      case None =>
        match Accumulated(ZeroMap(LastEo(Pairs(files, false))), Pairs(addimg, true), false)
        case Err(e) => Err(e)
        case Ok(_) =>
          if AddQpKeys(files) == [] then Err(EmptyTable) else Ok(AddQpOutput(add, sub, addimg))
  }

  /** `sorted(qpdic.keys(), key=itemgetter(2, 1))`. */
  function AddQpKeys(files: seq<QpFile>): (keys: seq<QpKey>)
    ensures forall x :: x in keys <==> x in Keys(Pairs(files, false))
  {
    Sorting.SortBy(InsertionOrder(Keys(Pairs(files, false))), KeyLeq)
  }

  /** The output database of a successful add_qp. */
  function AddQpOutput(add: seq<QpFile>, sub: seq<QpFile>, addimg: seq<QpFile>): QpDatabase
    requires AddQpKeys(add + sub + addimg) != []
  {
    var files := add + sub + addimg;
    var keys := AddQpKeys(files);
    QpDatabase(files[0].pars.(nqps := |keys|), keys, files[0].kpts,
               RealColumn(keys, LastEo(Pairs(files, false)), add, sub), ImagColumn(keys, addimg),
               Description(keys), files[|files| - 1].pars.nstrings)
  }

  lemma AppendAssoc<T>(x: seq<T>, y: seq<T>, w: seq<T>)
    ensures (x + y) + w == x + (y + w)
  {
  }

  lemma {:induction false} PairsAppend(a: seq<QpFile>, b: seq<QpFile>, imag: bool)
    ensures Pairs(a + b, imag) == Pairs(a, imag) + Pairs(b, imag)
    decreases |b|
  {
    if b == [] {
      assert a + b == a;
    } else {
      var n := |b| - 1;
      var f := b[n];
      var z := Zip(f.table, if imag then f.eImag else f.eReal);
      PairsAppend(a, b[..n], imag);
      assert Pairs(a + b, imag) == Pairs(a + b[..n], imag) + z by {
        assert (a + b)[..|a + b| - 1] == a + b[..n];
        assert (a + b)[|a + b| - 1] == f;
      }
      assert Pairs(b, imag) == Pairs(b[..n], imag) + z;
      AppendAssoc(Pairs(a, imag), Pairs(b[..n], imag), z);
    }
  }

  lemma {:induction false} DistinctCounts<T>(s: seq<T>, x: T)
    requires Distinct(s)
    ensures multiset(s)[x] <= 1
  {
    if s != [] {
      var n := |s| - 1;
      assert s == s[..n] + [s[n]];
      assert Distinct(s[..n]);
      DistinctCounts(s[..n], x);
      if x == s[n] {
        assert x !in s[..n];
      }
    }
  }

  /** A permutation of a sequence without repetitions has none either. */
  lemma DistinctPermutation<T>(s: seq<T>, t: seq<T>)
    requires Distinct(s) && multiset(s) == multiset(t)
    ensures Distinct(t)
  {
    forall i, j | 0 <= i < j < |t| ensures t[i] != t[j] {
      if t[i] == t[j] {
        assert t == t[..j] + t[j..];
        assert t[i] in t[..j] && t[j] in t[j..];
        assert multiset(t)[t[i]] == multiset(t[..j])[t[i]] + multiset(t[j..])[t[i]];
        DistinctCounts(s, t[i]);
        assert false;
      }
    }
  }

  lemma KeysOfAppend(p: seq<(QpKey, QpRow)>, q: seq<(QpKey, QpRow)>)
    ensures forall i :: 0 <= i < |p| ==> p[i].0 in LastEo(p + q)
    ensures forall i :: 0 <= i < |q| ==> q[i].0 in LastEo(p + q)
  {
    forall i | 0 <= i < |p| ensures p[i].0 in Keys(p + q) {
      assert Keys(p + q)[i] == p[i].0;
    }
    forall i | 0 <= i < |q| ensures q[i].0 in Keys(p + q) {
      assert Keys(p + q)[|p| + i] == q[i].0;
    }
  }

  /** Every key of the `add` and `subtract` databases is a key of the
      dictionary of bare energies. */
  lemma CorrectedKeysKnown(add: seq<QpFile>, sub: seq<QpFile>, addimg: seq<QpFile>)
    ensures var eo := LastEo(Pairs(add + sub + addimg, false));
      && (forall i :: 0 <= i < |Pairs(add, false)| ==> Pairs(add, false)[i].0 in eo)
      && (forall i :: 0 <= i < |Pairs(sub, false)| ==> Pairs(sub, false)[i].0 in eo)
  {
    var pa, ps, pi := Pairs(add, false), Pairs(sub, false), Pairs(addimg, false);
    assert add + sub + addimg == add + (sub + addimg);
    PairsAppend(add, sub + addimg, false);
    PairsAppend(sub, addimg, false);
    KeysOfAppend(pa, ps + pi);
    assert forall i :: 0 <= i < |ps| ==> (ps + pi)[i] == ps[i];
  }

  /** Rows with a zero energy, the bare energy of their key and Z = 1. */
  function BareColumn(keys: seq<QpKey>, eo: map<QpKey, real>): (rows: seq<QpRow>)
    requires forall x :: x in keys ==> x in eo
    ensures |rows| == |keys|
  {
    seq(|keys|, l requires 0 <= l < |keys| => QpRow(0.0, eo[keys[l]], 1.0))
  }

  /** Rows whose energy has received the value of their key in `e`. */
  function Raised(rows: seq<QpRow>, keys: seq<QpKey>, e: map<QpKey, real>): (r: seq<QpRow>)
    requires |rows| == |keys| && forall x :: x in keys ==> x in e
    ensures |r| == |rows|
  {
    seq(|rows|, l requires 0 <= l < |rows| => rows[l].(e := rows[l].e + e[keys[l]]))
  }

  /** The output slices, zero-initialized, then given the bare energies
      and Z = 1 (the imaginary bare energies stay zero). */
  method BareRows(keys: seq<QpKey>, qpdic: map<QpKey, real>) returns (re: array<QpRow>, im: array<QpRow>)
    requires forall x :: x in keys ==> x in qpdic
    ensures fresh(re) && fresh(im) && re != im
    ensures re[..] == BareColumn(keys, qpdic)
    ensures im[..] == BareColumn(keys, ZeroMap(qpdic))
  {
    var n := |keys|;
    re := new QpRow[n](_ => QpRow(0.0, 0.0, 0.0));
    im := new QpRow[n](_ => QpRow(0.0, 0.0, 0.0));
    for i := 0 to n
      invariant forall l :: 0 <= l < i ==> re[l] == QpRow(0.0, qpdic[keys[l]], 0.0)
      invariant forall l :: i <= l < n ==> re[l] == QpRow(0.0, 0.0, 0.0)
      invariant forall l :: 0 <= l < n ==> im[l] == QpRow(0.0, 0.0, 0.0)
    {
      re[i] := re[i].(eo := qpdic[keys[i]]);
    }
    forall i | 0 <= i < n {
      re[i] := re[i].(z := 1.0);
    }
    forall i | 0 <= i < n {
      im[i] := im[i].(eo := 0.0);
    }
    forall i | 0 <= i < n {
      im[i] := im[i].(z := 1.0);
    }
  }

  /** The last loop of add_qp: each row's energy receives the accumulated
      value of its key, in both slices. */
  method AddEnergies(re: array<QpRow>, im: array<QpRow>, keys: seq<QpKey>, e: map<QpKey, real>, ei: map<QpKey, real>)
    requires re != im && re.Length == |keys| && im.Length == |keys|
    requires forall x :: x in keys ==> x in e && x in ei
    modifies re, im
    ensures re[..] == Raised(old(re[..]), keys, e)
    ensures im[..] == Raised(old(im[..]), keys, ei)
  {
    for i := 0 to |keys|
      invariant forall l :: 0 <= l < i ==> re[l] == old(re[l]).(e := old(re[l]).e + e[keys[l]])
      invariant forall l :: i <= l < |keys| ==> re[l] == old(re[l])
      invariant forall l :: 0 <= l < i ==> im[l] == old(im[l]).(e := old(im[l]).e + ei[keys[l]])
      invariant forall l :: i <= l < |keys| ==> im[l] == old(im[l])
    {
      re[i] := re[i].(e := re[i].e + e[keys[i]]);
      im[i] := im[i].(e := im[i].e + ei[keys[i]]);
    }
  }

  /** The `add` and `subtract` loops raise no KeyError when every key they
      meet is in the dictionary; each value then gains its net correction. */
  lemma CorrectionsSucceed(qpdic: map<QpKey, real>, add: seq<QpFile>, sub: seq<QpFile>)
    requires forall i :: 0 <= i < |Pairs(add, false)| ==> Pairs(add, false)[i].0 in qpdic
    requires forall i :: 0 <= i < |Pairs(sub, false)| ==> Pairs(sub, false)[i].0 in qpdic
    ensures Accumulated(qpdic, Pairs(add, false), false).Ok?
    ensures var added := Accumulated(qpdic, Pairs(add, false), false).value;
      var r := Accumulated(added, Pairs(sub, false), true);
      && r.Ok? && r.value.Keys == qpdic.Keys
      && forall x :: x in qpdic ==>
           r.value[x] == qpdic[x] + Correction(Pairs(add, false), x) - Correction(Pairs(sub, false), x)
  {
    AccumulatedMeaning(qpdic, Pairs(add, false), false);
    var added := Accumulated(qpdic, Pairs(add, false), false).value;
    AccumulatedMeaning(added, Pairs(sub, false), true);
  }

  /** The bare rows raised by the corrected dictionary are the real slice. */
  lemma RealRows(keys: seq<QpKey>, eo: map<QpKey, real>, add: seq<QpFile>, sub: seq<QpFile>, e: map<QpKey, real>)
    requires forall x :: x in keys ==> x in eo
    requires e.Keys == eo.Keys
    requires forall x :: x in eo ==>
               e[x] == eo[x] + Correction(Pairs(add, false), x) - Correction(Pairs(sub, false), x)
    ensures Raised(BareColumn(keys, eo), keys, e) == RealColumn(keys, eo, add, sub)
  {
  }

  /** The zero rows raised by the imaginary dictionary are the imaginary
      slice. */
  lemma ImagRows(keys: seq<QpKey>, eo: map<QpKey, real>, addimg: seq<QpFile>, ei: map<QpKey, real>)
    requires forall x :: x in keys ==> x in eo
    requires ei.Keys == eo.Keys
    requires forall x :: x in eo ==> ei[x] == 0.0 + Correction(Pairs(addimg, true), x)
    ensures Raised(BareColumn(keys, ZeroMap(eo)), keys, ei) == ImagColumn(keys, addimg)
  {
  }

  /** add_qp, from the reading of the databases to the columns of the
      output database. */
  method AddQp(add: seq<QpFile>, sub: seq<QpFile>, addimg: seq<QpFile>) returns (r: Result<QpDatabase, QpError>)
    ensures r == AddQpSpec(add, sub, addimg)
  {
    var files := add + sub + addimg;
    if files == [] {
      return Err(NoFiles);
    }
    var qpdic, qpdici, order, mismatch := ReadDatabases(files);
    if mismatch.Some? {
      return Err(KpointMismatch(mismatch.value));
    }
    var keys := Sorting.SortBy(order, KeyLeq);
    var n := |keys|;
    var re, im := BareRows(keys, qpdic);
    // the corrections
    CorrectedKeysKnown(add, sub, addimg);
    CorrectionsSucceed(qpdic, add, sub);
    var added := Accumulate(qpdic, add, false, false);
    var corrected := Accumulate(added.value, sub, false, true);
    var imag := Accumulate(qpdici, addimg, true, false);
    if imag.Err? {
      return Err(imag.error);
    }
    AccumulatedMeaning(qpdici, Pairs(addimg, true), false);
    AddEnergies(re, im, keys, corrected.value, imag.value);
    if n == 0 {
      return Err(EmptyTable);
    }
    RealRows(keys, qpdic, add, sub, corrected.value);
    ImagRows(keys, qpdic, addimg, imag.value);
    return Ok(QpDatabase(files[0].pars.(nqps := n), keys, files[0].kpts, re[..], im[..],
                         Description(keys), files[|files| - 1].pars.nstrings));
  }

  /** add_qp refuses an empty list of databases, and a database whose number
      of k-points is not the first database's, naming the first such one. */
  lemma AddQpRejects(add: seq<QpFile>, sub: seq<QpFile>, addimg: seq<QpFile>)
    ensures var files := add + sub + addimg;
      var r := AddQpSpec(add, sub, addimg);
      && (r == Err(NoFiles) <==> files == [])
      && (files != [] ==>
            ((exists i :: 0 <= i < |files| && files[i].pars.nkpoints != files[0].pars.nkpoints)
             <==> r.Err? && r.error.KpointMismatch?))
      && (r.Err? && r.error.KpointMismatch? ==>
            exists i :: 0 <= i < |files| && files[i].name == r.error.name
                        && files[i].pars.nkpoints != files[0].pars.nkpoints
                        && forall j :: 0 <= j < i ==> files[j].pars.nkpoints == files[0].pars.nkpoints)
  {
    var files := add + sub + addimg;
    if files != [] && FirstMismatch(files, files[0].pars.nkpoints).None? {
      var eo := LastEo(Pairs(files, false));
      AccumulatedMeaning(ZeroMap(eo), Pairs(addimg, true), false);
    }
  }

  /** Once add_qp has read all databases, it fails on an imaginary
      correction whose key the real slices never listed, naming the first
      such key. */
  lemma AddQpUnknownKey(add: seq<QpFile>, sub: seq<QpFile>, addimg: seq<QpFile>)
    requires add + sub + addimg != []
    requires forall i :: 0 <= i < |add + sub + addimg| ==>
               (add + sub + addimg)[i].pars.nkpoints == (add + sub + addimg)[0].pars.nkpoints
    ensures var keys := Keys(Pairs(add + sub + addimg, false));
      var im := Pairs(addimg, true);
      var r := AddQpSpec(add, sub, addimg);
      && (r.Err? && r.error.UnknownKey? <==> exists i :: 0 <= i < |im| && im[i].0 !in keys)
      && (r.Err? && r.error.UnknownKey? ==>
            exists i :: 0 <= i < |im| && im[i].0 !in keys && r.error.key == im[i].0
                        && forall j :: 0 <= j < i ==> im[j].0 in keys)
  {
    var files := add + sub + addimg;
    var keys := Keys(Pairs(files, false));
    var im := Pairs(addimg, true);
    var d := ZeroMap(LastEo(Pairs(files, false)));
    assert forall x :: x in d <==> x in keys;
    AccumulatedMeaning(d, im, false);
    AddQpAfterReading(add, sub, addimg);
    var acc := Accumulated(d, im, false);
    if acc.Err? {
      var i :| 0 <= i < |im| && im[i].0 !in d && acc.error == UnknownKey(im[i].0)
               && forall j :: 0 <= j < i ==> im[j].0 in d;
      assert im[i].0 !in keys;
    }
  }

  /** With matching k-point counts, add_qp's outcome is decided by the
      accumulation of the imaginary corrections, then by the empty table. */
  lemma AddQpAfterReading(add: seq<QpFile>, sub: seq<QpFile>, addimg: seq<QpFile>)
    requires add + sub + addimg != []
    requires forall i :: 0 <= i < |add + sub + addimg| ==>
               (add + sub + addimg)[i].pars.nkpoints == (add + sub + addimg)[0].pars.nkpoints
    ensures var files := add + sub + addimg;
      var acc := Accumulated(ZeroMap(LastEo(Pairs(files, false))), Pairs(addimg, true), false);
      var r := AddQpSpec(add, sub, addimg);
      && (acc.Err? ==> r == Err(acc.error))
      && (acc.Ok? ==> r.Ok? || r == Err(EmptyTable))
  {
    var files := add + sub + addimg;
    assert FirstMismatch(files, files[0].pars.nkpoints).None?;
  }

  /** Otherwise add_qp fails only when no database lists any quasiparticle. */
  lemma AddQpEmptyTable(add: seq<QpFile>, sub: seq<QpFile>, addimg: seq<QpFile>)
    requires add + sub + addimg != []
    requires forall i :: 0 <= i < |add + sub + addimg| ==>
               (add + sub + addimg)[i].pars.nkpoints == (add + sub + addimg)[0].pars.nkpoints
    requires forall x :: x in Keys(Pairs(addimg, true)) ==> x in Keys(Pairs(add + sub + addimg, false))
    ensures AddQpSpec(add, sub, addimg).Err? <==> Pairs(add + sub + addimg, false) == []
    ensures AddQpSpec(add, sub, addimg).Err? ==> AddQpSpec(add, sub, addimg).error == EmptyTable
  {
    var all := Pairs(add + sub + addimg, false);
    var im := Pairs(addimg, true);
    var eo := LastEo(all);
    forall i | 0 <= i < |im| ensures im[i].0 in eo {
      assert im[i].0 in Keys(im);
    }
    AccumulatedMeaning(ZeroMap(eo), im, false);
  }

  /** The rows of add_qp's output are the distinct keys read from all the
      databases, each once, ordered by k-point and then by second band. */
  lemma AddQpRows(add: seq<QpFile>, sub: seq<QpFile>, addimg: seq<QpFile>)
    requires AddQpSpec(add, sub, addimg).Ok?
    ensures var files := add + sub + addimg;
      var db := AddQpSpec(add, sub, addimg).value;
      && Sorting.SortedBy(db.table, KeyLeq)
      && Distinct(db.table)
      && (forall x :: x in db.table <==> x in Keys(Pairs(files, false)))
      && (forall i :: 0 <= i < |files| ==> files[i].pars.nkpoints == db.pars.nkpoints)
      && db.pars == files[0].pars.(nqps := |db.table|)
      && db.kpts == files[0].kpts
      && db.description == Description(db.table)
      && db.descriptionSlot == files[|files| - 1].pars.nstrings
  {
    var files := add + sub + addimg;
    var order := InsertionOrder(Keys(Pairs(files, false)));
    KeyLeqIsTotalPreorder();
    Sorting.SortBySorted(order, KeyLeq);
    DistinctPermutation(order, Sorting.SortBy(order, KeyLeq));
  }

  /** `sorted` is stable: keys with the same k-point and second band keep the
      order in which the dictionary first received them. */
  lemma AddQpTiesInReadOrder(add: seq<QpFile>, sub: seq<QpFile>, addimg: seq<QpFile>, y: QpKey)
    requires AddQpSpec(add, sub, addimg).Ok?
    ensures Sorting.TiedWith(AddQpSpec(add, sub, addimg).value.table, y, KeyLeq)
            == Sorting.TiedWith(InsertionOrder(Keys(Pairs(add + sub + addimg, false))), y, KeyLeq)
  {
    var order := InsertionOrder(Keys(Pairs(add + sub + addimg, false)));
    assert AddQpSpec(add, sub, addimg).value.table == Sorting.SortBy(order, KeyLeq);
    KeyLeqIsTotalPreorder();
    Sorting.SortByStable(order, y, KeyLeq);
  }

  /** The imaginary corrections of a successful add_qp name only keys that
      the real slices list. */
  lemma AddQpImagKeys(add: seq<QpFile>, sub: seq<QpFile>, addimg: seq<QpFile>)
    requires AddQpSpec(add, sub, addimg).Ok?
    ensures forall x :: x in Keys(Pairs(addimg, true)) ==> x in Keys(Pairs(add + sub + addimg, false))
  {
    var eo := LastEo(Pairs(add + sub + addimg, false));
    var ps := Pairs(addimg, true);
    AccumulatedMeaning(ZeroMap(eo), ps, false);
    forall x | x in Keys(ps) ensures x in eo {
      var i :| 0 <= i < |ps| && Keys(ps)[i] == x;
    }
  }

  /** The bare energy of each row of add_qp's output is the one of the last
      pair that lists its key. */
  lemma AddQpBareEnergies(add: seq<QpFile>, sub: seq<QpFile>, addimg: seq<QpFile>)
    requires AddQpKeys(add + sub + addimg) != []
    ensures var db := AddQpOutput(add, sub, addimg);
      && |db.eReal| == |db.table|
      && forall i :: 0 <= i < |db.table| ==>
           LastWritten(Pairs(add + sub + addimg, false), db.table[i], db.eReal[i].eo)
  {
    var all := Pairs(add + sub + addimg, false);
    var db := AddQpOutput(add, sub, addimg);
    forall i | 0 <= i < |db.table| ensures LastWritten(all, db.table[i], db.eReal[i].eo) {
      LastEoIsLastWriter(all, db.table[i]);
    }
  }

  /** The energies of add_qp's output: the real energy of a row is its bare
      energy plus the corrections of the `add` databases minus those of the
      `subtract` ones; its imaginary energy is the sum of the imaginary
      corrections of the `addimg` databases; Z is 1 in both slices. */
  lemma AddQpEnergies(add: seq<QpFile>, sub: seq<QpFile>, addimg: seq<QpFile>)
    requires AddQpKeys(add + sub + addimg) != []
    ensures var db := AddQpOutput(add, sub, addimg);
      && |db.eReal| == |db.table| && |db.eImag| == |db.table|
      && forall i :: 0 <= i < |db.table| ==>
           && db.eReal[i].e == db.eReal[i].eo + Correction(Pairs(add, false), db.table[i])
                                              - Correction(Pairs(sub, false), db.table[i])
           && db.eReal[i].z == 1.0
           && db.eImag[i] == QpRow(Correction(Pairs(addimg, true), db.table[i]), 0.0, 1.0)
  {
    var files := add + sub + addimg;
    var keys := AddQpKeys(files);
    var eo := LastEo(Pairs(files, false));
    var re, im := RealColumn(keys, eo, add, sub), ImagColumn(keys, addimg);
    var db := AddQpOutput(add, sub, addimg);
    assert db.table == keys && db.eReal == re && db.eImag == im;
    forall i | 0 <= i < |keys|
      ensures re[i].e == re[i].eo + Correction(Pairs(add, false), keys[i]) - Correction(Pairs(sub, false), keys[i])
      ensures re[i].z == 1.0 && im[i] == QpRow(Correction(Pairs(addimg, true), keys[i]), 0.0, 1.0)
    {
    }
  }

  // ---------------------------------------------------------------------
  // merge_qp

  /** Python's `a[i]` on a sequence of length `n`: a negative index counts
      from the end; anything else outside the sequence is an IndexError. */
  function PyIndex(i: int, n: nat): (r: Option<nat>)
    ensures r.Some? <==> -(n as int) <= i < n
    ensures r.Some? ==> r.value < n && (if i >= 0 then r.value == i else r.value == n + i)
  {
    if 0 <= i < n then Some(i) else if -(n as int) <= i < 0 then Some((n + i) as nat) else None
  }

  /** `QP_kpts_save[k - 1] = kpts[k - 1]` for one row of a table. */
  datatype KWrite = KWrite(k: int, src: seq<KPoint>)

  /** The row of the output k-point table the write goes to. */
  function Target(w: KWrite, n: nat): Option<nat>
  {
    PyIndex(w.k - 1, n)
  }

  /** Both indices of the write are in range. */
  predicate InRange(w: KWrite, n: nat)
  {
    Target(w, n).Some? && PyIndex(w.k - 1, |w.src|).Some?
  }

  /** The k-point the write copies. */
  function Source(w: KWrite): KPoint
    requires PyIndex(w.k - 1, |w.src|).Some?
  {
    w.src[PyIndex(w.k - 1, |w.src|).value]
  }

  /** The writes of one database: one per row of its table, from its own
      k-point table. */
  function FileWrites(f: QpFile): (ws: seq<KWrite>)
    ensures |ws| == |f.table| && forall i :: 0 <= i < |ws| ==> ws[i] == KWrite(f.table[i].k, f.kpts)
  {
    seq(|f.table|, i requires 0 <= i < |f.table| => KWrite(f.table[i].k, f.kpts))
  }

  /** The writes of the databases in order. */
  function Writes(files: seq<QpFile>): seq<KWrite>
  {
    if files == [] then [] else Writes(files[..|files| - 1]) + FileWrites(files[|files| - 1])
  }

  /** The k-point table after the writes, or the IndexError of the first
      write out of range. */
  function Filled(buf: seq<KPoint>, ws: seq<KWrite>): (r: Result<seq<KPoint>, QpError>)
    ensures r.Ok? ==> |r.value| == |buf|
  {
    if ws == [] then Ok(buf)
    else
      var w := ws[|ws| - 1];
      match Filled(buf, ws[..|ws| - 1])
      case Err(e) => Err(e)
      case Ok(b) =>
        if !InRange(w, |b|) then Err(KpointOutOfRange(w.k))
        else Ok(b[Target(w, |b|).value := Source(w)])
  }

  /** No write goes to row `j`. */
  ghost predicate Untouched(ws: seq<KWrite>, n: nat, j: nat)
  {
    forall t :: 0 <= t < |ws| ==> Target(ws[t], n) != Some(j)
  }

  /** `v` is the k-point copied by the last write to row `j`. */
  ghost predicate LastCopied(ws: seq<KWrite>, n: nat, j: nat, v: KPoint)
  {
    exists t :: 0 <= t < |ws| && InRange(ws[t], n) && Target(ws[t], n) == Some(j) && Source(ws[t]) == v
                && forall u :: t < u < |ws| ==> Target(ws[u], n) != Some(j)
  }

  /** The writes fail exactly when one of them is out of range, and then
      report the first such. */
  lemma {:induction false} FilledErrors(buf: seq<KPoint>, ws: seq<KWrite>)
    ensures var r := Filled(buf, ws);
      && (r.Ok? <==> forall t :: 0 <= t < |ws| ==> InRange(ws[t], |buf|))
      && (r.Err? ==> exists t :: 0 <= t < |ws| && !InRange(ws[t], |buf|) && r.error == KpointOutOfRange(ws[t].k)
                                 && forall u :: 0 <= u < t ==> InRange(ws[u], |buf|))
  {
    if ws != [] {
      var n := |ws| - 1;
      FilledErrors(buf, ws[..n]);
      assert forall t :: 0 <= t < n ==> ws[..n][t] == ws[t];
      var prev := Filled(buf, ws[..n]);
      if prev.Err? {
        var t :| 0 <= t < n && !InRange(ws[..n][t], |buf|) && prev.error == KpointOutOfRange(ws[..n][t].k)
                 && forall u :: 0 <= u < t ==> InRange(ws[..n][u], |buf|);
        assert !InRange(ws[t], |buf|);
      }
    }
  }

  /** After the writes each row of the table holds the k-point copied by the
      last write to it, or its initial value when no write went there. */
  lemma {:induction false} FilledCells(buf: seq<KPoint>, ws: seq<KWrite>, j: nat)
    requires Filled(buf, ws).Ok? && j < |buf|
    ensures var b := Filled(buf, ws).value;
      (Untouched(ws, |buf|, j) && b[j] == buf[j]) || LastCopied(ws, |buf|, j, b[j])
  {
    FilledErrors(buf, ws);
    if ws != [] {
      var n := |ws| - 1;
      var w := ws[n];
      FilledErrors(buf, ws[..n]);
      FilledCells(buf, ws[..n], j);
      var prev := Filled(buf, ws[..n]).value;
      var b := Filled(buf, ws).value;
      if Target(w, |buf|) == Some(j) {
        assert LastCopied(ws, |buf|, j, b[j]) by {
          assert InRange(ws[n], |buf|) && Target(ws[n], |buf|) == Some(j) && Source(ws[n]) == b[j];
        }
      } else if Untouched(ws[..n], |buf|, j) && prev[j] == buf[j] {
        assert Untouched(ws, |buf|, j) by {
          forall t | 0 <= t < |ws| ensures Target(ws[t], |buf|) != Some(j) {
            if t < n { assert ws[t] == ws[..n][t]; }
          }
        }
      } else {
        assert b[j] == prev[j];
        LastCopiedKept(ws, |buf|, j, prev[j]);
      }
    }
  }

  /** A last write to row `j` stays the last one when a write elsewhere
      follows it. */
  lemma LastCopiedKept(ws: seq<KWrite>, size: nat, j: nat, v: KPoint)
    requires ws != [] && Target(ws[|ws| - 1], size) != Some(j)
    requires LastCopied(ws[..|ws| - 1], size, j, v)
    ensures LastCopied(ws, size, j, v)
  {
    var n := |ws| - 1;
    var t :| 0 <= t < n && InRange(ws[..n][t], size) && Target(ws[..n][t], size) == Some(j)
             && Source(ws[..n][t]) == v
             && forall u :: t < u < n ==> Target(ws[..n][u], size) != Some(j);
    assert ws[t] == ws[..n][t];
    assert forall u :: t < u < n ==> ws[u] == ws[..n][u];
    assert forall u :: t < u < |ws| ==> Target(ws[u], size) != Some(j);
    assert InRange(ws[t], size) && Target(ws[t], size) == Some(j) && Source(ws[t]) == v;
  }

  /** Once a write is out of range the filling has failed for good. */
  lemma {:induction false} FilledErrPersists(buf: seq<KPoint>, ws: seq<KWrite>, more: seq<KWrite>)
    requires Filled(buf, ws).Err?
    ensures Filled(buf, ws + more) == Filled(buf, ws)
    decreases |more|
  {
    if more == [] {
      assert ws + more == ws;
    } else {
      var n := |more| - 1;
      assert (ws + more)[..|ws + more| - 1] == ws + more[..n];
      FilledErrPersists(buf, ws, more[..n]);
    }
  }

  /** One more write on a filling that has not failed. */
  lemma FilledStep(buf: seq<KPoint>, ws: seq<KWrite>, w: KWrite, b: seq<KPoint>)
    requires Filled(buf, ws) == Ok(b)
    ensures Filled(buf, ws + [w])
         == if !InRange(w, |b|) then Err(KpointOutOfRange(w.k)) else Ok(b[Target(w, |b|).value := Source(w)])
  {
    assert (ws + [w])[..|ws|] == ws;
  }

  lemma WritesSnoc(files: seq<QpFile>, i: nat)
    requires i < |files|
    ensures Writes(files[..i + 1]) == Writes(files[..i]) + FileWrites(files[i])
  {
    assert files[..i + 1][..i] == files[..i];
  }

  lemma {:induction false} WritesAppend(a: seq<QpFile>, b: seq<QpFile>)
    ensures Writes(a + b) == Writes(a) + Writes(b)
    decreases |b|
  {
    if b == [] {
      assert a + b == a;
    } else {
      var n := |b| - 1;
      assert (a + b)[..|a + b| - 1] == a + b[..n];
      assert (a + b)[|a + b| - 1] == b[n];
      WritesAppend(a, b[..n]);
      AppendAssoc(Writes(a), Writes(b[..n]), FileWrites(b[n]));
      calc {
        Writes(a + b);
        Writes(a + b[..n]) + FileWrites(b[n]);
        (Writes(a) + Writes(b[..n])) + FileWrites(b[n]);
        Writes(a) + (Writes(b[..n]) + FileWrites(b[n]));
        Writes(a) + Writes(b);
      }
    }
  }

  lemma FilledErrOfPrefix(buf: seq<KPoint>, files: seq<QpFile>, i: nat)
    requires i <= |files|
    requires Filled(buf, Writes(files[..i])).Err?
    ensures Filled(buf, Writes(files)) == Filled(buf, Writes(files[..i]))
  {
    assert files == files[..i] + files[i..];
    WritesAppend(files[..i], files[i..]);
    FilledErrPersists(buf, Writes(files[..i]), Writes(files[i..]));
  }

  lemma FilledErrAt(buf: seq<KPoint>, done: seq<KWrite>, ws: seq<KWrite>, j: nat)
    requires j <= |ws| && Filled(buf, done + ws[..j]).Err?
    ensures Filled(buf, done + ws) == Filled(buf, done + ws[..j])
  {
    assert done + ws == (done + ws[..j]) + ws[j..];
    FilledErrPersists(buf, done + ws[..j], ws[j..]);
  }

  /** The inner loop of merge_qp over the rows of one database's table. */
  method FillFile(buf: array<KPoint>, ghost start: seq<KPoint>, ghost done: seq<KWrite>, f: QpFile)
    returns (err: Option<QpError>)
    requires Filled(start, done) == Ok(buf[..])
    modifies buf
    ensures err.None? ==> Filled(start, done + FileWrites(f)) == Ok(buf[..])
    ensures err.Some? ==> Filled(start, done + FileWrites(f)) == Err(err.value)
  {
    ghost var ws := FileWrites(f);
    assert done + ws[..0] == done;
    for j := 0 to |f.table|
      invariant Filled(start, done + ws[..j]) == Ok(buf[..])
    {
      var k := f.table[j].k;
      var src := PyIndex(k - 1, |f.kpts|);
      var dst := PyIndex(k - 1, buf.Length);
      ghost var w, before := ws[j], buf[..];
      assert w == KWrite(k, f.kpts);
      AppendNext(done, ws, j);
      FilledStep(start, done + ws[..j], w, before);
      if src.None? || dst.None? {
        FilledErrAt(start, done, ws, j + 1);
        return Some(KpointOutOfRange(k));
      }
      assert Target(w, |before|) == dst && Source(w) == f.kpts[src.value];
      buf[dst.value] := f.kpts[src.value];
      assert buf[..] == before[dst.value := Source(w)];
    }
    assert ws[..|f.table|] == ws;
    return None;
  }

  /** `np.vstack` of the tables of the databases. */
  function Tables(files: seq<QpFile>): seq<QpKey>
  {
    if files == [] then [] else Tables(files[..|files| - 1]) + files[|files| - 1].table
  }

  /** `np.concatenate(..., axis=1)` of one slice of the energies. */
  function Energies(files: seq<QpFile>, imag: bool): seq<QpRow>
  {
    if files == [] then []
    else
      var f := files[|files| - 1];
      Energies(files[..|files| - 1], imag) + (if imag then f.eImag else f.eReal)
  }

  /** `np.zeros([n, 3])` as a k-point table. */
  function ZeroKpts(n: nat): (z: seq<KPoint>)
    ensures |z| == n && forall j :: 0 <= j < n ==> z[j] == Origin
  {
    seq(n, _ => Origin)
  }

  /** merge_qp: the database whose table is the concatenation of the others'. */
  function MergeQpSpec(files: seq<QpFile>): Result<QpDatabase, QpError>
  {
    if files == [] then Err(NoFiles)
    else
      var table := Tables(files);
      if table == [] then Err(EmptyTable)
      else
        var nk := MaxOf(KColumn(table));
        if nk < 0 then Err(NegativeDimension)
        else
          match Filled(ZeroKpts(nk), Writes(files))
          case Err(e) => Err(e)
          case Ok(kpts) =>
            Ok(QpDatabase(files[0].pars.(nkpoints := nk, nqps := |table|), table, kpts,
                          Energies(files, false), Energies(files, true),
                          Description(table), files[|files| - 1].pars.nstrings))
  }

  lemma TablesSnoc(files: seq<QpFile>, i: nat)
    requires i < |files|
    ensures Tables(files[..i + 1]) == Tables(files[..i]) + files[i].table
    ensures Energies(files[..i + 1], false) == Energies(files[..i], false) + files[i].eReal
    ensures Energies(files[..i + 1], true) == Energies(files[..i], true) + files[i].eImag
  {
    assert files[..i + 1][..i] == files[..i];
  }

  /** The reading loop of merge_qp: the tables and both energy slices are
      appended database by database. */
  method ReadMerged(files: seq<QpFile>) returns (table: seq<QpKey>, eReal: seq<QpRow>, eImag: seq<QpRow>)
    ensures table == Tables(files) && eReal == Energies(files, false) && eImag == Energies(files, true)
  {
    table, eReal, eImag := [], [], [];
    for i := 0 to |files|
      invariant table == Tables(files[..i])
      invariant eReal == Energies(files[..i], false) && eImag == Energies(files[..i], true)
    {
      TablesSnoc(files, i);
      table := table + files[i].table;
      eReal := eReal + files[i].eReal;
      eImag := eImag + files[i].eImag;
    }
    assert files[..|files|] == files;
  }

  /** The k-point loop of merge_qp, file by file. */
  method FillKpoints(files: seq<QpFile>, nk: nat) returns (r: Result<seq<KPoint>, QpError>)
    ensures r == Filled(ZeroKpts(nk), Writes(files))
  {
    var kpts := new KPoint[nk](_ => Origin);
    assert kpts[..] == ZeroKpts(nk);
    for i := 0 to |files|
      invariant Filled(ZeroKpts(nk), Writes(files[..i])) == Ok(kpts[..])
    {
      var err := FillFile(kpts, ZeroKpts(nk), Writes(files[..i]), files[i]);
      WritesSnoc(files, i);
      if err.Some? {
        FilledErrOfPrefix(ZeroKpts(nk), files, i + 1);
        return Err(err.value);
      }
    }
    assert files[..|files|] == files;
    return Ok(kpts[..]);
  }

  /** merge_qp, from the reading of the databases to the tables of the
      output database. */
  method MergeQp(files: seq<QpFile>) returns (r: Result<QpDatabase, QpError>)
    ensures r == MergeQpSpec(files)
  {
    if |files| == 0 {
      return Err(NoFiles);
    }
    var table, eReal, eImag := ReadMerged(files);
    if |table| == 0 {
      return Err(EmptyTable);
    }
    var nk := MaxOf(KColumn(table));
    if nk < 0 {
      return Err(NegativeDimension);
    }
    var kpts := FillKpoints(files, nk);
    if kpts.Err? {
      return Err(kpts.error);
    }
    return Ok(QpDatabase(files[0].pars.(nkpoints := nk, nqps := |table|), table, kpts.value, eReal, eImag,
                         Description(table), files[|files| - 1].pars.nstrings));
  }

  /** The merged table, and the writes, are concatenations over the
      databases. */
  lemma {:induction false} TablesAppend(a: seq<QpFile>, b: seq<QpFile>)
    ensures Tables(a + b) == Tables(a) + Tables(b)
    ensures Writes(a + b) == Writes(a) + Writes(b)
    decreases |b|
  {
    WritesAppend(a, b);
    if b == [] {
      assert a + b == a;
    } else {
      var n := |b| - 1;
      assert (a + b)[..|a + b| - 1] == a + b[..n];
      assert (a + b)[|a + b| - 1] == b[n];
      TablesAppend(a, b[..n]);
      AppendAssoc(Tables(a), Tables(b[..n]), b[n].table);
      calc {
        Tables(a + b);
        Tables(a + b[..n]) + b[n].table;
        (Tables(a) + Tables(b[..n])) + b[n].table;
        Tables(a) + (Tables(b[..n]) + b[n].table);
        Tables(a) + Tables(b);
      }
    }
  }

  lemma {:induction false} EnergiesAppend(a: seq<QpFile>, b: seq<QpFile>, imag: bool)
    ensures Energies(a + b, imag) == Energies(a, imag) + Energies(b, imag)
    decreases |b|
  {
    if b == [] {
      assert a + b == a;
    } else {
      var n := |b| - 1;
      var e := if imag then b[n].eImag else b[n].eReal;
      assert (a + b)[..|a + b| - 1] == a + b[..n];
      assert (a + b)[|a + b| - 1] == b[n];
      EnergiesAppend(a, b[..n], imag);
      AppendAssoc(Energies(a, imag), Energies(b[..n], imag), e);
      calc {
        Energies(a + b, imag);
        Energies(a + b[..n], imag) + e;
        (Energies(a, imag) + Energies(b[..n], imag)) + e;
        Energies(a, imag) + (Energies(b[..n], imag) + e);
        Energies(a, imag) + Energies(b, imag);
      }
    }
  }

  /** There is one write per row of the merged table. */
  lemma {:induction false} WritesLength(files: seq<QpFile>)
    ensures |Writes(files)| == |Tables(files)|
  {
    if files != [] {
      WritesLength(files[..|files| - 1]);
    }
  }

  /** Row `j` of database `i` is row `|Tables(files[..i])| + j` of the merged
      table, and its write copies row `k - 1` of database `i`'s own k-point
      table. */
  lemma TableRow(files: seq<QpFile>, i: nat, j: nat)
    requires i < |files| && j < |files[i].table|
    ensures var o := |Tables(files[..i])|;
      && o + j < |Tables(files)| && Tables(files)[o + j] == files[i].table[j]
      && o + j < |Writes(files)| && Writes(files)[o + j] == KWrite(files[i].table[j].k, files[i].kpts)
  {
    var pre, post := files[..i], files[i + 1..];
    assert files == pre + ([files[i]] + post);
    TablesAppend(pre, [files[i]] + post);
    TablesAppend([files[i]], post);
    assert [files[i]][..0] == [];
    WritesLength(pre);
  }

  /** Row `j` of the energies of database `i` is row
      `|Energies(files[..i], imag)| + j` of the concatenated slice. */
  lemma EnergiesRow(files: seq<QpFile>, i: nat, j: nat, imag: bool)
    requires i < |files| && j < |if imag then files[i].eImag else files[i].eReal|
    ensures var o := |Energies(files[..i], imag)|;
      && o + j < |Energies(files, imag)|
      && Energies(files, imag)[o + j] == (if imag then files[i].eImag else files[i].eReal)[j]
  {
    var pre, post := files[..i], files[i + 1..];
    assert files == pre + ([files[i]] + post);
    EnergiesAppend(pre, [files[i]] + post, imag);
    EnergiesAppend([files[i]], post, imag);
    assert [files[i]][..0] == [];
  }

  lemma {:induction false} TablesEmpty(files: seq<QpFile>)
    ensures Tables(files) == [] <==> forall i :: 0 <= i < |files| ==> files[i].table == []
  {
    if files != [] {
      var n := |files| - 1;
      TablesEmpty(files[..n]);
      assert forall i :: 0 <= i < n ==> files[..n][i] == files[i];
    }
  }

  /** merge_qp fails on no database (numpy cannot stack nothing), on tables
      that are all empty (the maximum of nothing) and on a largest k-point
      index below zero (a table of negative size). */
  lemma MergeQpEarlyErrors(files: seq<QpFile>)
    ensures var r := MergeQpSpec(files);
      var table := Tables(files);
      && (r == Err(NoFiles) <==> files == [])
      && (r == Err(EmptyTable) <==> files != [] && forall i :: 0 <= i < |files| ==> files[i].table == [])
      && (r == Err(NegativeDimension) <==> table != [] && forall t :: 0 <= t < |table| ==> table[t].k < 0)
  {
    TablesEmpty(files);
    var table := Tables(files);
    if table != [] {
      var m := MaxOf(KColumn(table));
      assert forall t :: 0 <= t < |table| ==> KColumn(table)[t] in KColumn(table);
      if m >= 0 {
        FilledErrors(ZeroKpts(m), Writes(files));
      }
    }
  }

  /** Past those checks merge_qp fails exactly when a row's k index is out of
      range of its own database's k-point table or of the output table, and
      reports the first such row. */
  lemma MergeQpIndexErrors(files: seq<QpFile>)
    requires Tables(files) != [] && MaxOf(KColumn(Tables(files))) >= 0
    ensures var r := MergeQpSpec(files);
      var nk := MaxOf(KColumn(Tables(files)));
      var ws := Writes(files);
      && (r.Err? <==> exists t :: 0 <= t < |ws| && !InRange(ws[t], nk))
      && (r.Err? ==> exists t :: 0 <= t < |ws| && !InRange(ws[t], nk) && r.error == KpointOutOfRange(ws[t].k)
                                 && forall u :: 0 <= u < t ==> InRange(ws[u], nk))
  {
    var nk := MaxOf(KColumn(Tables(files)));
    var f := Filled(ZeroKpts(nk), Writes(files));
    FilledErrors(ZeroKpts(nk), Writes(files));
    if f.Err? {
      assert MergeQpSpec(files) == Err(f.error);
    } else {
      assert MergeQpSpec(files).Ok?;
    }
  }

  /** The k-point table of merge_qp's output has as many rows as the largest
      k index of the merged table; each row holds the k-point copied by the
      last table row that names it, or the origin when none does. */
  lemma MergeQpKpoints(files: seq<QpFile>)
    requires MergeQpSpec(files).Ok?
    ensures var db := MergeQpSpec(files).value;
      var nk := db.pars.nkpoints;
      && nk == |db.kpts|
      && (forall t :: 0 <= t < |db.table| ==> db.table[t].k <= nk)
      && (exists t :: 0 <= t < |db.table| && db.table[t].k == nk)
      && forall j :: 0 <= j < nk ==>
           (Untouched(Writes(files), nk, j) && db.kpts[j] == Origin) || LastCopied(Writes(files), nk, j, db.kpts[j])
  {
    var db := MergeQpSpec(files).value;
    var table := Tables(files);
    var nk := MaxOf(KColumn(table));
    assert forall t :: 0 <= t < |table| ==> KColumn(table)[t] in KColumn(table);
    forall j | 0 <= j < nk
      ensures (Untouched(Writes(files), nk, j) && db.kpts[j] == Origin) || LastCopied(Writes(files), nk, j, db.kpts[j])
    {
      FilledCells(ZeroKpts(nk), Writes(files), j);
    }
  }

  /** The other variables of merge_qp's output: both energy slices
      concatenated, PARS of the first database with the new sizes, the
      description of the merged table, in the description slot of the last
      database. */
  lemma {:induction false} MergeQpVariables(files: seq<QpFile>)
    requires MergeQpSpec(files).Ok?
    ensures var db := MergeQpSpec(files).value;
      && db.table == Tables(files)
      && db.eReal == Energies(files, false) && db.eImag == Energies(files, true)
      && db.pars == files[0].pars.(nkpoints := MaxOf(KColumn(db.table)), nqps := |db.table|)
      && db.description == Description(db.table)
      && db.descriptionSlot == files[|files| - 1].pars.nstrings
  {
  }
}
