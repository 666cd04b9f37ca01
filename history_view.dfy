/** The two classifiers of the inventory-history dialog: the kind of a stock
    change and the signed amount shown beside it. */
module HistoryView {
  import opened Common
  import opened Strings

  /** The four kinds of change the dialog distinguishes. */
  datatype ChangeType = Initial | Increase | Decrease | NoChange

  function ChangeTypeLabel(t: ChangeType): string
  {
    match t
    case Initial => "initial"
    case Increase => "increase"
    case Decrease => "decrease"
    case NoChange => "no-change"
  }

  /** `getChangeType`: a first stocking of an empty product is 'initial', which
      takes precedence over 'increase'; otherwise the direction of the change. */
  function GetChangeType(oldQty: int, newQty: int): (t: ChangeType)
    ensures t == Initial <==> oldQty == 0 && newQty > 0
    ensures t == Increase <==> newQty > oldQty && oldQty != 0
    ensures t == Decrease <==> newQty < oldQty
    ensures t == NoChange <==> newQty == oldQty
  {
    if oldQty == 0 && newQty > 0 then Initial
    else if newQty > oldQty then Increase
    else if newQty < oldQty then Decrease
    else NoChange
  }

  /** `getChangeAmount`: the difference, with an explicit '+' when it is positive. */
  function GetChangeAmount(oldQty: int, newQty: int): (s: string)
    ensures |s| >= 1
    ensures s[0] == '+' <==> newQty > oldQty
    ensures s[0] == '-' <==> newQty < oldQty
    ensures newQty == oldQty ==> s == "0"
  {
    var diff := newQty - oldQty;
    if diff > 0 then "+" + NatToString(diff) else IntToString(diff)
  }

  /** The amount reads back as the difference: `parseInt` of the text is
      `newQty - oldQty`. */
  lemma ChangeAmountReadsBack(oldQty: int, newQty: int)
    ensures JsParseInt(GetChangeAmount(oldQty, newQty)) == Some(newQty - oldQty)
  {
    var diff := newQty - oldQty;
    if diff > 0 {
      ParseIntOfPlusSigned(diff);
    } else {
      ParseIntOfIntToString(diff);
    }
  }

  /** The label and the amount agree: the amount carries a '+' exactly for an
      'initial' or 'increase' change, a '-' exactly for a 'decrease', and is
      "0" exactly for 'no-change'. */
  lemma ChangeTypeAgreesWithAmount(oldQty: int, newQty: int)
    ensures var t := GetChangeType(oldQty, newQty);
      var s := GetChangeAmount(oldQty, newQty);
      (s[0] == '+' <==> t == Initial || t == Increase) &&
      (s[0] == '-' <==> t == Decrease) &&
      (s == "0" <==> t == NoChange)
  {
    var s := GetChangeAmount(oldQty, newQty);
    if newQty != oldQty {
      assert s[0] != '0';
    }
  }
}
