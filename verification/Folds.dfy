/** One-pass running aggregates per group, against their meaning on each group alone. */
module Folds {
  import opened Wrappers

  datatype RowPt = RowPt(grp: string, val: real)

  // The values of a group, in order.
  function Vals(pts: seq<RowPt>, g: string): seq<real> {
    if pts == [] then []
    else Vals(pts[..|pts| - 1], g) + if pts[|pts| - 1].grp == g then [pts[|pts| - 1].val] else []
  }

  function Sum(vs: seq<real>): real {
    if vs == [] then 0.0 else Sum(vs[..|vs| - 1]) + vs[|vs| - 1]
  }

  function Times(x: real, y: real): real {
    x * y
  }

  function Percent(part: real, total: real): Option<real> {
    if total != 0.0 then Some(part / total * 100.0) else None
  }

  function Product(vs: seq<real>): real {
    if vs == [] then 1.0 else Times(Product(vs[..|vs| - 1]), vs[|vs| - 1])
  }

  function Largest(vs: seq<real>): real
    requires vs != []
  {
    if |vs| == 1 then vs[0]
    else
      var m := Largest(vs[..|vs| - 1]);
      if vs[|vs| - 1] > m then vs[|vs| - 1] else m
  }

  function Smallest(vs: seq<real>): real
    requires vs != []
  {
    if |vs| == 1 then vs[0]
    else
      var m := Smallest(vs[..|vs| - 1]);
      if vs[|vs| - 1] < m then vs[|vs| - 1] else m
  }

  lemma {:induction false} Extremes(vs: seq<real>)
    requires vs != []
    ensures Largest(vs) in vs && Smallest(vs) in vs
    ensures forall v :: v in vs ==> Smallest(vs) <= v <= Largest(vs)
  {
    if |vs| > 1 {
      var init := vs[..|vs| - 1];
      Extremes(init);
      assert vs == init + [vs[|vs| - 1]];
    }
  }

  lemma GroupOneMore(pts: seq<RowPt>, p: RowPt, g: string)
    ensures Vals(pts + [p], g) == if p.grp == g then Vals(pts, g) + [p.val] else Vals(pts, g)
  {
    assert (pts + [p])[..|pts|] == pts;
  }

  lemma Drop<T>(vs: seq<T>, v: T)
    ensures (vs + [v])[..|vs|] == vs
  {
  }

  // ---------------------------------------------------------------- cumulative operations

  // `percent` is absent where the program gives a NaN, for a group whose values add up to zero.
  datatype Cumulative = Cumulative(
    original: real, cumsum: real, cumproduct: real, cummax: real, cummin: real, percent: Option<real>)

  // What row `i` stands for: the aggregates of its group's values up to and with it.
  function CumulativeAt(pts: seq<RowPt>, i: nat): Cumulative
    requires i < |pts|
  {
    var g := pts[i].grp;
    var vs := Vals(pts[..i + 1], g);
    assert pts[..i + 1] == pts[..i] + [pts[i]];
    GroupOneMore(pts[..i], pts[i], g);
    Cumulative(pts[i].val, Sum(vs), Product(vs), Largest(vs), Smallest(vs), Percent(Sum(vs), Sum(Vals(pts, g))))
  }

  // What the four dictionaries hold for a group whose values so far are `vs`.
  ghost predicate Holds(vs: seq<real>, g: string, csum: map<string, real>, cprod: map<string, real>,
                        cmax: map<string, real>, cmin: map<string, real>) {
    if vs == [] then g !in csum && g !in cprod && g !in cmax && g !in cmin
    else
      && g in csum && csum[g] == Sum(vs)
      && g in cprod && cprod[g] == Product(vs)
      && g in cmax && cmax[g] == Largest(vs)
      && g in cmin && cmin[g] == Smallest(vs)
  }

  ghost predicate Running(pts: seq<RowPt>, csum: map<string, real>, cprod: map<string, real>,
                          cmax: map<string, real>, cmin: map<string, real>) {
    forall g :: Holds(Vals(pts, g), g, csum, cprod, cmax, cmin)
  }

  function Get(m: map<string, real>, g: string, default: real): real {
    if g in m then m[g] else default
  }

  lemma AggregatesOneMore(vs: seq<real>, v: real)
    ensures Sum(vs + [v]) == Sum(vs) + v
    ensures Product(vs + [v]) == if vs == [] then v else Times(Product(vs), v)
    ensures Largest(vs + [v]) == if vs == [] || v > Largest(vs) then v else Largest(vs)
    ensures Smallest(vs + [v]) == if vs == [] || v < Smallest(vs) then v else Smallest(vs)
  {
    Drop(vs, v);
    assert Product(vs + [v]) == Times(Product(vs), v);
  }

  lemma TotalOneMore(pts: seq<RowPt>, p: RowPt, total: map<string, real>, g: string)
    requires Get(total, g, 0.0) == Sum(Vals(pts, g))
    requires Get(total, p.grp, 0.0) == Sum(Vals(pts, p.grp))
    ensures Get(total[p.grp := Get(total, p.grp, 0.0) + p.val], g, 0.0) == Sum(Vals(pts + [p], g))
  {
    hide Sum, Vals;
    GroupOneMore(pts, p, g);
    AggregatesOneMore(Vals(pts, g), p.val);
  }

  method Totals(pts: seq<RowPt>) returns (total: map<string, real>)
    ensures forall g :: Get(total, g, 0.0) == Sum(Vals(pts, g))
  {
    total := map[];
    for i := 0 to |pts|
      invariant forall g :: Get(total, g, 0.0) == Sum(Vals(pts[..i], g))
    {
      hide Sum, Vals, Get;
      var p := pts[i];
      assert pts[..i + 1] == pts[..i] + [p];
      forall g {:trigger Vals(pts[..i + 1], g)} ensures Get(total[p.grp := Get(total, p.grp, 0.0) + p.val], g, 0.0) == Sum(Vals(pts[..i + 1], g)) {
        TotalOneMore(pts[..i], p, total, g);
      }
      total := total[p.grp := Get(total, p.grp, 0.0) + p.val];
    }
    assert pts[..|pts|] == pts;
  }

  lemma HoldsOneMore(vs: seq<real>, g: string, v: real, csum: map<string, real>, cprod: map<string, real>,
                     cmax: map<string, real>, cmin: map<string, real>)
    requires Holds(vs, g, csum, cprod, cmax, cmin)
    ensures Holds(vs + [v], g, csum[g := Get(csum, g, 0.0) + v],
                  cprod[g := if g in cprod then Times(cprod[g], v) else v],
                  cmax[g := if g in cmax && v <= cmax[g] then cmax[g] else v],
                  cmin[g := if g in cmin && v >= cmin[g] then cmin[g] else v])
  {
    AggregatesOneMore(vs, v);
    assert vs == [] ==> Sum(vs) == 0.0;
    hide Sum, Product, Times, Largest, Smallest;
  }

  lemma RunningOneMore(pts: seq<RowPt>, p: RowPt, csum: map<string, real>, cprod: map<string, real>,
                       cmax: map<string, real>, cmin: map<string, real>)
    requires Running(pts, csum, cprod, cmax, cmin)
    ensures var g := p.grp;
      Running(pts + [p], csum[g := Get(csum, g, 0.0) + p.val],
              cprod[g := if g in cprod then Times(cprod[g], p.val) else p.val],
              cmax[g := if g in cmax && p.val <= cmax[g] then cmax[g] else p.val],
              cmin[g := if g in cmin && p.val >= cmin[g] then cmin[g] else p.val])
  {
    hide Sum, Product, Times, Largest, Smallest, Vals;
    var g := p.grp;
    HoldsOneMore(Vals(pts, g), g, p.val, csum, cprod, cmax, cmin);
    GroupOneMore(pts, p, g);
    forall h | h != g
      ensures Holds(Vals(pts + [p], h), h, csum[g := Get(csum, g, 0.0) + p.val],
        cprod[g := if g in cprod then Times(cprod[g], p.val) else p.val],
        cmax[g := if g in cmax && p.val <= cmax[g] then cmax[g] else p.val],
        cmin[g := if g in cmin && p.val >= cmin[g] then cmin[g] else p.val])
    {
      GroupOneMore(pts, p, h);
      assert Holds(Vals(pts, h), h, csum, cprod, cmax, cmin);
    }
  }

  lemma RowIs(pts: seq<RowPt>, i: nat, csum: map<string, real>, cprod: map<string, real>,
              cmax: map<string, real>, cmin: map<string, real>)
    requires i < |pts| && Running(pts[..i + 1], csum, cprod, cmax, cmin)
    ensures var g := pts[i].grp;
      && g in csum && g in cprod && g in cmax && g in cmin
      && CumulativeAt(pts, i) == Cumulative(pts[i].val, csum[g], cprod[g], cmax[g], cmin[g],
                                            Percent(csum[g], Sum(Vals(pts, g))))
  {
    hide Sum, Product, Times, Largest, Smallest, Vals, Percent;
    var g := pts[i].grp;
    assert pts[..i + 1] == pts[..i] + [pts[i]];
    GroupOneMore(pts[..i], pts[i], g);
    assert Holds(Vals(pts[..i + 1], g), g, csum, cprod, cmax, cmin);
  }

  // Every row written so far is right.
  ghost predicate Rows(pts: seq<RowPt>, out: seq<Cumulative>) {
    |out| <= |pts| && forall j :: 0 <= j < |out| ==> out[j] == CumulativeAt(pts, j)
  }

  lemma RowsOneMore(pts: seq<RowPt>, out: seq<Cumulative>, row: Cumulative)
    requires Rows(pts, out) && |out| < |pts| && row == CumulativeAt(pts, |out|)
    ensures Rows(pts, out + [row])
  {
    hide CumulativeAt;
  }

  lemma NothingYet(pts: seq<RowPt>)
    ensures Running(pts[..0], map[], map[], map[], map[]) && Rows(pts, [])
  {
    hide Sum, Product, Largest, Smallest, CumulativeAt;
    assert forall g :: Vals([], g) == [];
  }

  /** The single pass computes, for every row, the folds of its own group's values so far. */
  method CumulativeOperations(pts: seq<RowPt>) returns (out: seq<Cumulative>)
    ensures |out| == |pts| && Rows(pts, out)
  {
    hide Sum, Product, Times, Largest, Smallest, Vals, Percent, Running, CumulativeAt, Get, Rows;
    var total := Totals(pts);
    var csum: map<string, real> := map[];
    var cprod: map<string, real> := map[];
    var cmax: map<string, real> := map[];
    var cmin: map<string, real> := map[];
    out := [];
    NothingYet(pts);
    for i := 0 to |pts|
      invariant Running(pts[..i], csum, cprod, cmax, cmin)
      invariant |out| == i && Rows(pts, out)
    {
      var p, g := pts[i], pts[i].grp;
      assert pts[..i + 1] == pts[..i] + [p];
      RunningOneMore(pts[..i], p, csum, cprod, cmax, cmin);
      csum := csum[g := Get(csum, g, 0.0) + p.val];
      cprod := cprod[g := if g in cprod then Times(cprod[g], p.val) else p.val];
      cmax := cmax[g := if g in cmax && p.val <= cmax[g] then cmax[g] else p.val];
      cmin := cmin[g := if g in cmin && p.val >= cmin[g] then cmin[g] else p.val];
      RowIs(pts, i, csum, cprod, cmax, cmin);
      var row := Cumulative(p.val, csum[g], cprod[g], cmax[g], cmin[g], Percent(csum[g], Get(total, g, 0.0)));
      RowsOneMore(pts, out, row);
      out := out + [row];
    }
  }

  // A share of the total in percent; there is none of a total of zero.
  lemma PercentIsShare(part: real, total: real)
    ensures Percent(part, total).Some? <==> total != 0.0
    ensures total != 0.0 ==> Percent(part, total).value * total == part * 100.0
  {
    if total != 0.0 {
      var q := part / total;
      assert q * total == part;
      assert q * 100.0 * total == part * 100.0;
    }
  }

  lemma WholeIsHundred(total: real)
    requires total != 0.0
    ensures Percent(total, total) == Some(100.0)
  {
    assert total / total == 1.0;
  }

  // The last row of a group accounts for all of it.
  lemma LastRowIsWhole(pts: seq<RowPt>, i: nat)
    requires i < |pts| && forall j :: i < j < |pts| ==> pts[j].grp != pts[i].grp
    ensures CumulativeAt(pts, i).cumsum == Sum(Vals(pts, pts[i].grp))
    ensures Sum(Vals(pts, pts[i].grp)) != 0.0 ==> CumulativeAt(pts, i).percent == Some(100.0)
  {
    hide Sum, Product, Times, Largest, Smallest, Vals, Percent;
    if Sum(Vals(pts, pts[i].grp)) != 0.0 { WholeIsHundred(Sum(Vals(pts, pts[i].grp))); }
    NothingMore(pts, i + 1, pts[i].grp);
  }

  lemma {:induction false} NothingMore(pts: seq<RowPt>, n: nat, g: string)
    requires n <= |pts| && forall j :: n <= j < |pts| ==> pts[j].grp != g
    ensures Vals(pts, g) == Vals(pts[..n], g)
  {
    if n < |pts| {
      var init := pts[..|pts| - 1];
      assert forall j :: 0 <= j < |init| ==> init[j] == pts[j];
      NothingMore(init, n, g);
      assert init[..n] == pts[..n];
      assert Vals(init, g) + [] == Vals(init, g);
    } else {
      assert pts[..n] == pts;
    }
  }

  // ---------------------------------------------------------------- exponential moving average

  function Blend(alpha: real, v: real, before: real): real {
    Times(alpha, v) + Times(1.0 - alpha, before)
  }

  // The average after the last of the values.
  function Ema(alpha: real, vs: seq<real>): real
    requires vs != []
  {
    if |vs| == 1 then vs[0]
    else Blend(alpha, vs[|vs| - 1], Ema(alpha, vs[..|vs| - 1]))
  }

  // `ema_arrow` on one list: the array is filled index by index.
  method EmaArrow(values: seq<real>, alpha: real) returns (out: seq<real>)
    ensures |out| == |values| && forall j :: 0 <= j < |values| ==> out[j] == Ema(alpha, values[..j + 1])
  {
    if values == [] { return []; }
    var e := new real[|values|];
    e[0] := values[0];
    for j := 1 to |values|
      invariant forall k :: 0 <= k < j ==> e[k] == Ema(alpha, values[..k + 1])
    {
      hide Blend;
      assert values[..j + 1][..j] == values[..j];
      e[j] := Blend(alpha, values[j], e[j - 1]);
    }
    out := e[..];
  }

  // The dictionary holds the average of every group met.
  ghost predicate Averages(pts: seq<RowPt>, a: real, last: map<string, real>) {
    forall g :: AverageIs(Vals(pts, g), a, g, last)
  }

  ghost predicate AverageIs(vs: seq<real>, a: real, g: string, last: map<string, real>) {
    if vs == [] then g !in last else g in last && last[g] == Ema(a, vs)
  }

  // What row `i` stands for: the average of its group's values up to and with it.
  ghost predicate EmaIs(pts: seq<RowPt>, i: nat, a: real, v: real)
    requires i < |pts|
  {
    var vs := Vals(pts[..i + 1], pts[i].grp);
    vs != [] && v == Ema(a, vs)
  }

  lemma AveragesOneMore(pts: seq<RowPt>, p: RowPt, a: real, last: map<string, real>)
    requires Averages(pts, a, last)
    ensures var v := if p.grp !in last then p.val else Blend(a, p.val, last[p.grp]);
      Averages(pts + [p], a, last[p.grp := v])
      && Vals(pts + [p], p.grp) != [] && v == Ema(a, Vals(pts + [p], p.grp))
  {
    var vs := Vals(pts, p.grp);
    Drop(vs, p.val);
    assert AverageIs(vs, a, p.grp, last);
    assert Ema(a, vs + [p.val]) == if vs == [] then p.val else Blend(a, p.val, Ema(a, vs)) by { hide Blend; }
    hide Ema, Vals, Blend;
    GroupOneMore(pts, p, p.grp);
    var v := if p.grp !in last then p.val else Blend(a, p.val, last[p.grp]);
    forall h ensures AverageIs(Vals(pts + [p], h), a, h, last[p.grp := v]) {
      GroupOneMore(pts, p, h);
      assert AverageIs(Vals(pts, h), a, h, last);
    }
  }

  /** The grouped pass gives every row the average of its group's values so far, which is the entry
      that `ema_arrow` computes for it on the values of the group alone; an absent or zero rate is 0.3. */
  method GroupedEma(pts: seq<RowPt>, alpha: Option<real>) returns (out: seq<real>)
    ensures |out| == |pts|
    ensures var rate := if alpha.Some? && alpha.value != 0.0 then alpha.value else 0.3;
      forall i :: 0 <= i < |pts| ==> EmaIs(pts, i, rate, out[i])
  {
    var a := if alpha.Some? && alpha.value != 0.0 then alpha.value else 0.3;
    var last: map<string, real> := map[];
    out := [];
    for i := 0 to |pts|
      invariant Averages(pts[..i], a, last)
      invariant |out| == i && forall j :: 0 <= j < i ==> EmaIs(pts, j, a, out[j])
    {
      hide Ema, Vals, Blend, Averages;
      var p := pts[i];
      assert pts[..i + 1] == pts[..i] + [p];
      AveragesOneMore(pts[..i], p, a, last);
      var v := if p.grp !in last then p.val else Blend(a, p.val, last[p.grp]);
      last := last[p.grp := v];
      assert EmaIs(pts, i, a, v);
      out := out + [v];
    }
  }

  // The values of a group up to a row are a prefix of all its values.
  lemma {:induction false} PrefixOfGroup(pts: seq<RowPt>, i: nat, g: string)
    requires i <= |pts|
    ensures Vals(pts[..i], g) <= Vals(pts, g)
  {
    if i < |pts| {
      assert pts[..|pts| - 1][..i] == pts[..i];
      PrefixOfGroup(pts[..|pts| - 1], i, g);
    } else {
      assert pts[..i] == pts;
    }
  }

  /** So a row of the grouped form is the entry that the list form, run on the whole group, gives
      to that row's place in the group. */
  lemma GroupedIsListForm(pts: seq<RowPt>, i: nat, alpha: real, v: real, list: seq<real>)
    requires i < |pts| && EmaIs(pts, i, alpha, v)
    requires |list| == |Vals(pts, pts[i].grp)|
    requires forall j :: 0 <= j < |list| ==> list[j] == Ema(alpha, Vals(pts, pts[i].grp)[..j + 1])
    ensures var place := |Vals(pts[..i + 1], pts[i].grp)|;
      0 < place <= |list| && v == list[place - 1]
  {
    hide Ema;
    var prefix := Vals(pts[..i + 1], pts[i].grp);
    PrefixOfGroup(pts, i + 1, pts[i].grp);
    assert Vals(pts, pts[i].grp)[..(|prefix| - 1) + 1] == prefix;
  }

  lemma Scale(a: real, x: real, y: real)
    requires 0.0 <= a && x <= y
    ensures Times(a, x) <= Times(a, y)
  {
    assert 0.0 <= a * (y - x);
  }

  lemma BlendMonotone(alpha: real, x: real, y: real, v: real, w: real)
    requires 0.0 <= alpha <= 1.0 && x <= v && y <= w
    ensures Blend(alpha, x, y) <= Blend(alpha, v, w)
  {
    hide Times;
    Scale(alpha, x, v);
    Scale(1.0 - alpha, y, w);
  }

  lemma BlendOfEqual(alpha: real, x: real)
    ensures Blend(alpha, x, x) == x
  {
  }

  lemma Between(alpha: real, x: real, y: real, lo: real, hi: real)
    requires 0.0 <= alpha <= 1.0 && lo <= x <= hi && lo <= y <= hi
    ensures lo <= Blend(alpha, x, y) <= hi
  {
    hide Blend;
    BlendMonotone(alpha, lo, lo, x, y);
    BlendMonotone(alpha, x, y, hi, hi);
    BlendOfEqual(alpha, lo);
    BlendOfEqual(alpha, hi);
  }

  /** The average stays between the smallest and the largest of the values. */
  lemma {:induction false} EmaBetweenExtremes(alpha: real, vs: seq<real>)
    requires vs != [] && 0.0 < alpha <= 1.0
    ensures Smallest(vs) <= Ema(alpha, vs) <= Largest(vs)
  {
    hide Blend;
    if |vs| > 1 {
      var init, v := vs[..|vs| - 1], vs[|vs| - 1];
      EmaBetweenExtremes(alpha, init);
      Between(alpha, v, Ema(alpha, init), Smallest(vs), Largest(vs));
    }
  }
}
