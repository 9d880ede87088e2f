/** The prediction screen: the predicted amount per category, coloured from
    a fixed palette, their total, the pie legend cut to four entries unless
    expanded, and a trend badge per category. */
module Prediction {
  import opened Common

  /** A category's predicted amount for the coming month, with the amount
      of the same month in the history when the server has one. */
  datatype Forecast = Forecast(categorie: string, prediction: real,
                               historique: Option<real>, color: Option<string>)

  /** The ten colours handed out in turn. */
  const Palette: seq<string> := ["#FF7043", "#42A5F5", "#66BB6A", "#AB47BC", "#FFCA28",
                                 "#26C6DA", "#EF5350", "#5C6BC0", "#FFA726", "#26A69A"]

  /** Entries shown in the legend before "Voir plus". */
  const LegendShown: nat := 4

  /** The evolution beyond which a category is rising or falling. */
  const BadgeThreshold: real := 5.0

  // ---------------------------------------------------------------------
  // Colours and total
  // ---------------------------------------------------------------------

  /** `resultats.map((item, index) => ({ ...item, color: colors[index % 10] }))`:
      every forecast keeps its category and amounts and takes the palette
      colour of its position. */
  function WithColors(resultats: seq<Forecast>): (r: seq<Forecast>)
    ensures |r| == |resultats|
    ensures forall i :: 0 <= i < |r| ==>
      r[i].color == Some(Palette[i % |Palette|]) &&
      r[i].categorie == resultats[i].categorie &&
      r[i].prediction == resultats[i].prediction &&
      r[i].historique == resultats[i].historique
  {
    seq(|resultats|, i requires 0 <= i < |resultats| => resultats[i].(color := Some(Palette[i % |Palette|])))
  }

  /** Two forecasts ten places apart share their colour. */
  lemma ColorsRepeatEveryTen(resultats: seq<Forecast>, i: nat)
    requires i + 10 < |resultats|
    ensures WithColors(resultats)[i].color == WithColors(resultats)[i + 10].color
  {
    assert (i + 10) % 10 == i % 10;
  }

  /** Among the first ten forecasts no two share a colour. */
  lemma FirstTenColorsDiffer(resultats: seq<Forecast>, i: nat, j: nat)
    requires i < j < |resultats| && j < 10
    ensures WithColors(resultats)[i].color != WithColors(resultats)[j].color
  {
    assert i % 10 == i && j % 10 == j;
  }

  /** The fill of the `i`th pie slice: the forecast's colour when it has a
      non-empty one, the palette colour of its position otherwise. */
  function PieFill(data: seq<Forecast>, i: nat): (r: string)
    requires i < |data|
    ensures data[i].color.Some? && data[i].color.value != "" ==> r == data[i].color.value
    ensures data[i].color.None? || data[i].color.value == "" ==> r == Palette[i % 10]
    ensures r != ""
  {
    var c := data[i].color;
    if c.Some? && c.value != "" then c.value else Palette[i % |Palette|]
  }

  /** After colouring, every slice of the pie has the colour of its legend
      dot. */
  lemma PieMatchesLegend(resultats: seq<Forecast>, i: nat)
    requires i < |resultats|
    ensures PieFill(WithColors(resultats), i) == WithColors(resultats)[i].color.value
    ensures PieFill(WithColors(resultats), i) == Palette[i % 10]
  {
  }

  /** The predicted amounts, in order. */
  function Amounts(data: seq<Forecast>): (r: seq<real>)
    ensures |r| == |data| && forall i :: 0 <= i < |data| ==> r[i] == data[i].prediction
  {
    seq(|data|, i requires 0 <= i < |data| => data[i].prediction)
  }

  /** `predictions.reduce((acc, item) => acc + item.prediction, 0)`: the
      sum of the predicted amounts. */
  function Total(data: seq<Forecast>): (r: real)
    ensures r == Sum(Amounts(data))
  {
    if data == [] then 0.0
    else
      var n := |data| - 1;
      assert Amounts(data)[..n] == Amounts(data[..n]);
      Total(data[..n]) + data[n].prediction
  }

  /** Appending a forecast adds its amount to the total. */
  lemma TotalSnoc(data: seq<Forecast>, f: Forecast)
    ensures Total(data + [f]) == Total(data) + f.prediction
  {
    assert (data + [f])[..|data|] == data;
  }

  /** Colouring does not change the total. */
  lemma {:induction false} TotalWithColors(resultats: seq<Forecast>)
    ensures Total(WithColors(resultats)) == Total(resultats)
  {
    assert Amounts(WithColors(resultats)) == Amounts(resultats);
  }

  /** When no amount is negative, each one is at most the total, so for a
      positive total every legend percentage lies between 0 and 100. */
  lemma {:induction false} EachAtMostTotal(data: seq<Forecast>, i: nat)
    requires forall j :: 0 <= j < |data| ==> data[j].prediction >= 0.0
    requires i < |data|
    ensures 0.0 <= data[i].prediction <= Total(data)
    decreases |data|
  {
    var n := |data| - 1;
    assert data == data[..n] + [data[n]];
    TotalSnoc(data[..n], data[n]);
    TotalNonNegative(data[..n]);
    if i < n {
      EachAtMostTotal(data[..n], i);
    }
  }

  /** With no negative amount the total is not negative. */
  lemma {:induction false} TotalNonNegative(data: seq<Forecast>)
    requires forall j :: 0 <= j < |data| ==> data[j].prediction >= 0.0
    ensures Total(data) >= 0.0
    decreases |data|
  {
    if data != [] {
      var n := |data| - 1;
      assert data == data[..n] + [data[n]];
      TotalSnoc(data[..n], data[n]);
      TotalNonNegative(data[..n]);
    }
  }

  // ---------------------------------------------------------------------
  // Legend
  // ---------------------------------------------------------------------

  /** `displayedLegend`: every forecast when expanded, else the first four. */
  function DisplayedLegend(data: seq<Forecast>, showAll: bool): (r: seq<Forecast>)
    ensures showAll ==> r == data
    ensures !showAll ==> r == data[..if |data| < 4 then |data| else 4]
  {
    Displayed(data, showAll, LegendShown)
  }

  /** The "Voir plus"/"Voir moins" toggle appears only for more than four
      forecasts; with four or fewer the legend lists them all either way,
      and with more the folded legend lists exactly four. */
  lemma LegendToggle(data: seq<Forecast>, showAll: bool)
    ensures ShowToggle(|data|, LegendShown) <==> |data| > 4
    ensures !ShowToggle(|data|, LegendShown) ==> DisplayedLegend(data, showAll) == data
    ensures ShowToggle(|data|, LegendShown) && !showAll ==> |DisplayedLegend(data, showAll)| == 4
  {
    NoToggleShowsAll(data, showAll, LegendShown);
  }

  // ---------------------------------------------------------------------
  // Trend badge
  // ---------------------------------------------------------------------

  datatype Badge = Hausse | Baisse | Stable

  /** The predicted amount minus the historical one, 0 without history. */
  function Evolution(f: Forecast): (r: real)
    ensures f.historique.None? ==> r == 0.0
    ensures f.historique.Some? ==> r + f.historique.value == f.prediction
  {
    if f.historique.Some? then f.prediction - f.historique.value else 0.0
  }

  /** The badge: rising above +5, falling below -5, stable in between
      (both bounds included). */
  function BadgeOf(f: Forecast): (b: Badge)
    ensures b == Hausse <==> Evolution(f) > BadgeThreshold
    ensures b == Baisse <==> Evolution(f) < -BadgeThreshold
    ensures b == Stable <==> -BadgeThreshold <= Evolution(f) <= BadgeThreshold
  {
    var evolution := Evolution(f);
    if evolution > BadgeThreshold then Hausse
    else if evolution < -BadgeThreshold then Baisse
    else Stable
  }

  /** A category without history is always stable. */
  lemma NoHistoryIsStable(f: Forecast)
    requires f.historique.None?
    ensures BadgeOf(f) == Stable
  {
  }

  /** The badge depends only on the amounts, not on the colour the list
      received. */
  lemma BadgeIgnoresColor(resultats: seq<Forecast>, i: nat)
    requires i < |resultats|
    ensures BadgeOf(WithColors(resultats)[i]) == BadgeOf(resultats[i])
  {
  }

  /** Raising the predicted amount never turns the badge from rising to a
      lower one: the badge is monotone in the prediction. */
  lemma BadgeMonotone(f: Forecast, g: Forecast)
    requires f.historique == g.historique && f.historique.Some?
    requires f.prediction <= g.prediction
    ensures BadgeOf(f) == Hausse ==> BadgeOf(g) == Hausse
    ensures BadgeOf(g) == Baisse ==> BadgeOf(f) == Baisse
  {
  }
}
