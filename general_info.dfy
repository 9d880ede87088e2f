/** The information tab of an account: its identity card, with a dash for
    every missing field, and the busiest month of the bar chart. */
module GeneralInfo {
  import opened Common

  /** The account as the tab receives it: every field may be missing. */
  datatype AccountInfo = AccountInfo(iban: Option<string>, solde: Option<real>,
                                     devise: Option<string>, dateOuverture: Option<string>)

  /** What a field of the card shows. */
  datatype Shown = Dash | Text(text: string) | Amount(value: real, currency: string) | Date(iso: string)

  // ---------------------------------------------------------------------
  // Busiest month
  // ---------------------------------------------------------------------

  /** `Math.max(...monthValues)`, with `None` for the `-Infinity` of an
      empty list. */
  function MaxValue(values: seq<real>): (r: Option<real>)
    ensures r.None? <==> values == []
    ensures r.Some? ==> r.value in values
    ensures r.Some? ==> forall i :: 0 <= i < |values| ==> values[i] <= r.value
  {
    if values == [] then None
    else
      var n := |values| - 1;
      var rest := MaxValue(values[..n]);
      if rest.None? || values[n] >= rest.value then Some(values[n]) else rest
  }

  /** `values.findIndex(val => val === x)`: the first index holding `x`,
      or -1. */
  function FindIndex(values: seq<real>, x: real): (r: int)
    ensures -1 <= r < |values|
    ensures r == -1 <==> x !in values
    ensures r >= 0 ==> values[r] == x && forall j :: 0 <= j < r ==> values[j] != x
  {
    if values == [] then -1
    else if values[0] == x then 0
    else
      var rest := FindIndex(values[1..], x);
      assert forall j :: 1 <= j < |values| ==> values[j] == values[1..][j - 1];
      if rest == -1 then -1 else rest + 1
  }

  /** `maxIndex`: -1 for an empty list (no value equals `-Infinity`), else
      the first index of a largest value. */
  function MaxIndex(values: seq<real>): (r: int)
    ensures values == [] ==> r == -1
    ensures values != [] ==>
      0 <= r < |values| &&
      (forall i :: 0 <= i < |values| ==> values[i] <= values[r]) &&
      (forall j :: 0 <= j < r ==> values[j] < values[r])
  {
    match MaxValue(values)
    case None => -1
    case Some(m) => FindIndex(values, m)
  }

  /** `monthLabels[maxIndex] || '-'`: a missing index (`undefined`) and an
      empty label both give the dash. */
  function MaxMonth(labels: seq<string>, values: seq<real>): (r: string)
    ensures values == [] ==> r == "-"
    ensures r == "-" || exists i :: (0 <= i < |labels| && i < |values| && r == labels[i] &&
      forall j :: 0 <= j < |values| ==> values[j] <= values[i])
  {
    var i := MaxIndex(values);
    if 0 <= i < |labels| && labels[i] != "" then labels[i] else "-"
  }

  /** With one non-empty label per value, the busiest month is the label of
      a largest value, the first one if several months tie. */
  lemma MaxMonthIsBusiest(labels: seq<string>, values: seq<real>)
    requires |labels| == |values| && values != []
    requires forall i :: 0 <= i < |labels| ==> labels[i] != ""
    ensures exists i :: (0 <= i < |values| && MaxMonth(labels, values) == labels[i] &&
      (forall j :: 0 <= j < |values| ==> values[j] <= values[i]) &&
      (forall j :: 0 <= j < i ==> values[j] < values[i]))
  {
    var i := MaxIndex(values);
    assert MaxMonth(labels, values) == labels[i];
  }

  /** Without values, or without a label at the busiest index, the card
      shows a dash. */
  lemma MaxMonthDash(labels: seq<string>, values: seq<real>)
    ensures values == [] ==> MaxMonth(labels, values) == "-"
    ensures |labels| <= MaxIndex(values) ==> MaxMonth(labels, values) == "-"
  {
  }

  // ---------------------------------------------------------------------
  // The identity card
  // ---------------------------------------------------------------------

  /** `compte.iban || '-'` */
  function IbanShown(info: AccountInfo): (r: Shown)
    ensures r == Dash <==> info.iban.None? || info.iban.value == ""
    ensures r != Dash ==> r == Text(info.iban.value)
  {
    if info.iban.Some? && info.iban.value != "" then Text(info.iban.value) else Dash
  }

  /** The balance with its currency (`compte.devise || ''`) when it is a
      number, the dash otherwise. */
  function SoldeShown(info: AccountInfo): (r: Shown)
    ensures r == Dash <==> info.solde.None?
    ensures info.solde.Some? && info.devise.Some? ==> r == Amount(info.solde.value, info.devise.value)
    ensures info.solde.Some? && info.devise.None? ==> r == Amount(info.solde.value, "")
  {
    if info.solde.Some? then
      Amount(info.solde.value, if info.devise.Some? then info.devise.value else "")
    else Dash
  }

  /** The opening date when present and non-empty, the dash otherwise. */
  function OpeningShown(info: AccountInfo): (r: Shown)
    ensures r == Dash <==> info.dateOuverture.None? || info.dateOuverture.value == ""
    ensures r != Dash ==> r == Date(info.dateOuverture.value)
  {
    if info.dateOuverture.Some? && info.dateOuverture.value != "" then Date(info.dateOuverture.value) else Dash
  }

  /** An account the tab knows nothing about shows a dash in all three
      fields. */
  lemma EmptyAccountShowsDashes()
    ensures var info := AccountInfo(None, None, None, None);
      IbanShown(info) == Dash && SoldeShown(info) == Dash && OpeningShown(info) == Dash
  {
  }
}
