/** The amounts of a payment: fixed items, then percentages of the running total, rounded only for display. */
module PaymentBreakdown {
  import opened Wrappers
  import opened Json
  import opened Placeholders
  import opened Text

  /** Every category but an addition is taken off. */
  datatype Category = Addition | Deduction | OtherCategory(name: string)

  /** Items of other kinds are not charged. */
  datatype Kind = Fixed | Percentage | OtherKind(name: string)

  datatype Item = Item(
    description: string, category: Category, kind: Kind, quantity: string, unitPrice: string, value: string)

  datatype Line = Line(
    description: string, category: Category, kind: Kind, quantity: real, unitPrice: real, amount: real)

  /** What the calculation reads from outside: global values, texts, and the parser and divider of decimals. */
  datatype Source = Source(
    global: string -> Option<Json>,
    texts: Lookup,
    parse: string -> Option<real>,
    /** The decimal quotient by 100, which may be inexact. */
    percent: real -> real)

  // ---- Values ---------------------------------------------------------------------------------

  predicate IsPlaceholder(val: string) {
    val != "" && val[0] == '{' && val[|val| - 1] == '}'
  }

  function ParseOr(src: Source, s: string, fallback: real): real {
    var d := src.parse(s);
    if d.Some? then d.value else fallback
  }

  /** A literal, or a global value with an optional default; anything unreadable gives the fallback. */
  function ResolveValue(src: Source, val: string, fallback: real): real {
    if val == "" then fallback
    else if IsPlaceholder(val) then
      assert |val| >= 2;
      var parts := SplitOn(val[1..|val| - 1], ':');
      var default_ := if |parts| > 1 then ParseOr(src, parts[1], fallback) else fallback;
      match src.global(parts[0])
      case Some(Number(n)) => n
      case Some(Str(s)) => ParseOr(src, s, default_)
      case _ => default_
    else ParseOr(src, val, fallback)
  }

  // ---- Rounding -------------------------------------------------------------------------------

  /** Two decimal places, halves away from zero. */
  function Round2(x: real): real {
    if x >= 0.0 then (x * 100.0 + 0.5).Floor as real / 100.0
    else -((-x * 100.0 + 0.5).Floor as real / 100.0)
  }

  function Abs(x: real): real {
    if x < 0.0 then -x else x
  }

  lemma RoundsBy(x: real)
    ensures Abs(Round2(x) - x) <= 0.005
  {
    var y := if x >= 0.0 then x else -x;
    var n := (y * 100.0 + 0.5).Floor as real;
    assert n <= y * 100.0 + 0.5 < n + 1.0;
    assert Abs(n / 100.0 - y) <= 0.005;
  }

  // ---- The calculation ------------------------------------------------------------------------

  function Signed(category: Category, amount: real): real {
    if category == Addition then amount else -amount
  }

  /** The exact product of two decimals. */
  function Times(x: real, y: real): real {
    x * y
  }

  /** The unrounded amount of an item, given the total so far. */
  function AmountOf(src: Source, item: Item, total: real): real {
    if item.kind == Fixed
    then Times(ResolveValue(src, item.quantity, 1.0), ResolveValue(src, item.unitPrice, 0.0))
    else src.percent(Times(total, ResolveValue(src, item.value, 0.0)))
  }

  function OfKind(items: seq<Item>, kind: Kind): seq<Item> {
    if items == [] then []
    else
      var rest := OfKind(items[..|items| - 1], kind);
      var last := items[|items| - 1];
      if last.kind == kind then rest + [last] else rest
  }

  /** The items of the breakdown in the order in which they are charged. */
  function Charged(items: seq<Item>): seq<Item> {
    OfKind(items, Fixed) + OfKind(items, Percentage)
  }

  /** The total after charging the items in turn. */
  function TotalAfter(src: Source, items: seq<Item>): real {
    if items == [] then 0.0
    else
      var before, item := TotalAfter(src, items[..|items| - 1]), items[|items| - 1];
      before + Signed(item.category, AmountOf(src, item, before))
  }

  /** The unrounded amount of the k-th item charged. */
  function AmountAt(src: Source, items: seq<Item>, k: nat): real
    requires k < |items|
  {
    AmountOf(src, items[k], TotalAfter(src, items[..k]))
  }

  /** The sum of the amounts of the first n items that are additions, or of those that are not. */
  function SumOf(src: Source, items: seq<Item>, n: nat, additions: bool): real
    requires n <= |items|
  {
    if n == 0 then 0.0
    else
      var before := SumOf(src, items, n - 1, additions);
      if items[n - 1].category.Addition? == additions then before + AmountAt(src, items, n - 1) else before
  }

  /** The total is what the additions come to, less everything else. */
  lemma {:induction false} TotalIsDifference(src: Source, items: seq<Item>, n: nat)
    requires n <= |items|
    ensures TotalAfter(src, items[..n]) == SumOf(src, items, n, true) - SumOf(src, items, n, false)
  {
    if n > 0 {
      TotalIsDifference(src, items, n - 1);
      assert items[..n][..n - 1] == items[..n - 1];
    }
  }

  /** The sum of the amounts of the charged additions, or of the other charged items. */
  function ChargedSum(src: Source, breakdown: seq<Item>, additions: bool): real {
    SumOf(src, Charged(breakdown), |Charged(breakdown)|, additions)
  }

  /** What the additions come to, less everything else. */
  function Balance(src: Source, breakdown: seq<Item>): real {
    ChargedSum(src, breakdown, true) - ChargedSum(src, breakdown, false)
  }

  lemma ChargedTotal(src: Source, breakdown: seq<Item>)
    ensures TotalAfter(src, Charged(breakdown)) == Balance(src, breakdown)
  {
    var items := Charged(breakdown);
    TotalIsDifference(src, items, |items|);
    assert items[..|items|] == items;
  }

  predicate IsCharged(item: Item) {
    item.kind.Fixed? || item.kind.Percentage?
  }

  /** The line shows the item, with the amount it has when the total so far is this. */
  predicate ShowsItem(src: Source, item: Item, total: real, line: Line) {
    && line.category == item.category && line.kind == item.kind
    && line.quantity == (if item.kind.Fixed? then ResolveValue(src, item.quantity, 1.0) else 0.0)
    && line.unitPrice == (if item.kind.Fixed? then ResolveValue(src, item.unitPrice, 0.0) else 0.0)
    && line.amount == Round2(AmountOf(src, item, total))
  }

  /** One line for each item, in order, with the amount it has at its turn. */
  ghost predicate LinesFor(src: Source, items: seq<Item>, lines: seq<Line>) {
    && |lines| == |items|
    && forall k | 0 <= k < |items| :: ShowsItem(src, items[k], TotalAfter(src, items[..k]), lines[k])
  }

  /** And with the text of its item. */
  ghost predicate Described(src: Source, items: seq<Item>, lines: seq<Line>) {
    && |lines| == |items|
    && forall k | 0 <= k < |items| ::
         Ends(items[k].description, src.texts) && lines[k].description == Resolved(items[k].description, src.texts)
  }

  /** The loop that fills in the texts ends on every item that is charged. */
  ghost predicate TextsEnd(src: Source, items: seq<Item>) {
    forall item | item in items && IsCharged(item) :: Ends(item.description, src.texts)
  }

  lemma NextLine(src: Source, items: seq<Item>, lines: seq<Line>, item: Item, line: Line)
    requires LinesFor(src, items, lines) && ShowsItem(src, item, TotalAfter(src, items), line)
    ensures LinesFor(src, items + [item], lines + [line])
    ensures TotalAfter(src, items + [item])
         == TotalAfter(src, items) + Signed(item.category, AmountOf(src, item, TotalAfter(src, items)))
  {
    var items' := items + [item];
    assert items'[..|items|] == items;
    forall k | 0 <= k < |items| ensures items'[..k] == items[..k] {
    }
  }

  lemma OfKindNext(items: seq<Item>, i: nat, kind: Kind)
    requires i < |items|
    ensures OfKind(items[..i + 1], kind)
         == OfKind(items[..i], kind) + (if items[i].kind == kind then [items[i]] else [])
  {
    assert items[..i + 1][..i] == items[..i];
  }

  /** Lines and unrounded total so far. */
  ghost predicate Accounts(src: Source, items: seq<Item>, lines: seq<Line>, total: real) {
    LinesFor(src, items, lines) && Described(src, items, lines) && total == TotalAfter(src, items)
  }

  lemma NextAccount(
      src: Source, items: seq<Item>, lines: seq<Line>, total: real, item: Item, line: Line, total': real)
    requires Accounts(src, items, lines, total) && ShowsItem(src, item, total, line)
    requires Ends(item.description, src.texts) && line.description == Resolved(item.description, src.texts)
    requires total' == total + Signed(item.category, AmountOf(src, item, total))
    ensures Accounts(src, items + [item], lines + [line], total')
  {
    NextLine(src, items, lines, item, line);
  }

  /** The body of the first loop. */
  method ChargeFixed(src: Source, item: Item, total: real) returns (line: Line, total': real)
    requires item.kind.Fixed? && Ends(item.description, src.texts)
    ensures ShowsItem(src, item, total, line) && line.description == Resolved(item.description, src.texts)
    ensures total' == total + Signed(item.category, AmountOf(src, item, total))
  {
    var qty := ResolveValue(src, item.quantity, 1.0);
    var price := ResolveValue(src, item.unitPrice, 0.0);
    var amount := Times(qty, price);
    if item.category == Addition {
      total' := total + amount;
    } else {
      total' := total - amount;
    }
    var description := ResolveString(item.description, src.texts);
    line := Line(description, item.category, item.kind, qty, price, Round2(amount));
  }

  /** The body of the second loop. */
  method ChargePercentage(src: Source, item: Item, total: real) returns (line: Line, total': real)
    requires item.kind.Percentage? && Ends(item.description, src.texts)
    ensures ShowsItem(src, item, total, line) && line.description == Resolved(item.description, src.texts)
    ensures total' == total + Signed(item.category, AmountOf(src, item, total))
  {
    var percentage := ResolveValue(src, item.value, 0.0);
    var amount := src.percent(Times(total, percentage));
    if item.category == Addition {
      total' := total + amount;
    } else {
      total' := total - amount;
    }
    var description := ResolveString(item.description, src.texts);
    line := Line(description, item.category, item.kind, 0.0, 0.0, Round2(amount));
  }

  /** The lines, and the rounded difference between the additions and everything else. */
  method CalculateBreakdown(src: Source, breakdown: seq<Item>) returns (resolved: seq<Line>, total: real)
    requires TextsEnd(src, breakdown)
    ensures LinesFor(src, Charged(breakdown), resolved) && Described(src, Charged(breakdown), resolved)
    ensures total == Round2(TotalAfter(src, Charged(breakdown)))
    ensures total == Round2(Balance(src, breakdown))
  {
    var finalTotal: real;
    resolved, finalTotal := ChargeAll(src, breakdown);
    ChargedTotal(src, breakdown);
    total := Round2(finalTotal);
  }

  /** The two loops. */
  method ChargeAll(src: Source, breakdown: seq<Item>) returns (resolved: seq<Line>, finalTotal: real)
    requires TextsEnd(src, breakdown)
    ensures LinesFor(src, Charged(breakdown), resolved) && Described(src, Charged(breakdown), resolved)
    ensures finalTotal == TotalAfter(src, Charged(breakdown))
  {
    resolved, finalTotal := ChargeFixedItems(src, breakdown);
    resolved, finalTotal := ChargePercentages(src, breakdown, OfKind(breakdown, Fixed), resolved, finalTotal);
  }

  method ChargeFixedItems(src: Source, breakdown: seq<Item>) returns (resolved: seq<Line>, subtotal: real)
    requires TextsEnd(src, breakdown)
    ensures Accounts(src, OfKind(breakdown, Fixed), resolved, subtotal)
  {
    resolved, subtotal := [], 0.0;
    ghost var charged: seq<Item> := [];
    for i := 0 to |breakdown|
      invariant charged == OfKind(breakdown[..i], Fixed)
      invariant Accounts(src, charged, resolved, subtotal)
    {
      OfKindNext(breakdown, i, Fixed);
      if breakdown[i].kind == Fixed {
        var line, next := ChargeFixed(src, breakdown[i], subtotal);
        NextAccount(src, charged, resolved, subtotal, breakdown[i], line, next);
        resolved, subtotal := resolved + [line], next;
        charged := charged + [breakdown[i]];
      }
    }
    assert breakdown[..|breakdown|] == breakdown;
  }

  method ChargePercentages(
      src: Source, breakdown: seq<Item>, ghost fixed: seq<Item>, lines: seq<Line>, subtotal: real)
    returns (resolved: seq<Line>, finalTotal: real)
    requires TextsEnd(src, breakdown) && Accounts(src, fixed, lines, subtotal)
    ensures Accounts(src, fixed + OfKind(breakdown, Percentage), resolved, finalTotal)
  {
    resolved, finalTotal := lines, subtotal;
    ghost var charged := fixed;
    for i := 0 to |breakdown|
      invariant charged == fixed + OfKind(breakdown[..i], Percentage)
      invariant Accounts(src, charged, resolved, finalTotal)
    {
      OfKindNext(breakdown, i, Percentage);
      if breakdown[i].kind == Percentage {
        var line, next := ChargePercentage(src, breakdown[i], finalTotal);
        NextAccount(src, charged, resolved, finalTotal, breakdown[i], line, next);
        resolved, finalTotal := resolved + [line], next;
        charged := charged + [breakdown[i]];
      }
    }
    assert breakdown[..|breakdown|] == breakdown;
  }

  // ---- The displayed lines against the displayed total ----------------------------------------

  /** What the displayed lines come to: the additions, less everything else. */
  function LineSum(lines: seq<Line>): real {
    if lines == [] then 0.0
    else
      var before, line := LineSum(lines[..|lines| - 1]), lines[|lines| - 1];
      if line.category.Addition? then before + line.amount else before - line.amount
  }

  /** x and y differ by at most n half cents. */
  predicate Near(x: real, y: real, n: nat) {
    Abs(x - y) <= 0.005 * n as real
  }

  lemma NearAdds(a: real, b: real, n: nat, c: real, d: real, m: nat)
    requires Near(a, b, n) && Near(c, d, m)
    ensures Near(a + c, b + d, n + m) && Near(a - c, b - d, n + m)
  {
  }

  lemma LinesForPrefix(src: Source, items: seq<Item>, lines: seq<Line>)
    requires LinesFor(src, items, lines) && items != []
    ensures LinesFor(src, items[..|items| - 1], lines[..|items| - 1])
  {
    var items' := items[..|items| - 1];
    forall k | 0 <= k < |items'| ensures items'[..k] == items[..k] {
    }
  }

  lemma LastLineNear(src: Source, items: seq<Item>, lines: seq<Line>)
    requires LinesFor(src, items, lines) && items != []
    ensures var n := |items| - 1;
      Near(AmountOf(src, items[n], TotalAfter(src, items[..n])), lines[n].amount, 1)
      && lines[n].category == items[n].category
  {
    RoundsBy(AmountOf(src, items[|items| - 1], TotalAfter(src, items[..|items| - 1])));
  }

  lemma {:induction false} LinesNearTotal(src: Source, items: seq<Item>, lines: seq<Line>)
    requires LinesFor(src, items, lines)
    ensures Near(TotalAfter(src, items), LineSum(lines), |items|)
    decreases |items|
  {
    if items != [] {
      var n := |items| - 1;
      LinesForPrefix(src, items, lines);
      LinesNearTotal(src, items[..n], lines[..n]);
      LastLineNear(src, items, lines);
      NearAdds(TotalAfter(src, items[..n]), LineSum(lines[..n]), n,
               AmountOf(src, items[n], TotalAfter(src, items[..n])), lines[n].amount, 1);
    }
  }

  lemma RoundNear(x: real, y: real, n: nat)
    requires Near(x, y, n)
    ensures Near(Round2(x), y, n + 1)
  {
    RoundsBy(x);
    NearAdds(x, y, n, Round2(x) - x, 0.0, 1);
  }

  /** The displayed total is off the displayed lines by at most half a cent for each line and one more. */
  lemma DisplayedTotalNearLines(src: Source, breakdown: seq<Item>, lines: seq<Line>)
    requires LinesFor(src, Charged(breakdown), lines)
    ensures Abs(Round2(TotalAfter(src, Charged(breakdown))) - LineSum(lines)) <= 0.005 * (|lines| + 1) as real
  {
    LinesNearTotal(src, Charged(breakdown), lines);
    RoundNear(TotalAfter(src, Charged(breakdown)), LineSum(lines), |lines|);
  }

  // ---- Which items are charged, and in which order --------------------------------------------

  ghost predicate Increasing(at: seq<nat>, n: nat) {
    && (forall j | 0 <= j < |at| :: at[j] < n)
    && (forall j, k | 0 <= j < k < |at| :: at[j] < at[k])
  }

  /** The items at some positions. */
  function Picked(items: seq<Item>, at: seq<nat>): seq<Item>
    requires forall j | 0 <= j < |at| :: at[j] < |items|
  {
    seq(|at|, j requires 0 <= j < |at| => items[at[j]])
  }

  ghost predicate Finds(items: seq<Item>, kind: Kind, at: seq<nat>) {
    forall i | 0 <= i < |items| :: items[i].kind == kind <==> i in at
  }

  /** The items of a kind are those at exactly these positions, in order. */
  ghost predicate Positions(items: seq<Item>, kind: Kind, at: seq<nat>) {
    Increasing(at, |items|) && Finds(items, kind, at) && OfKind(items, kind) == Picked(items, at)
  }

  lemma FindsNext(items: seq<Item>, item: Item, kind: Kind, at: seq<nat>)
    requires Increasing(at, |items|) && Finds(items, kind, at)
    ensures Finds(items + [item], kind, if item.kind == kind then at + [|items|] else at)
  {
    var at' := if item.kind == kind then at + [|items|] else at;
    var all := items + [item];
    forall i | 0 <= i < |all| ensures all[i].kind == kind <==> i in at' {
      if i < |items| {
        assert all[i] == items[i] && (i in at' <==> i in at);
      }
    }
  }

  lemma PickedNext(items: seq<Item>, item: Item, kind: Kind, at: seq<nat>)
    requires Increasing(at, |items|) && OfKind(items, kind) == Picked(items, at)
    ensures var at' := if item.kind == kind then at + [|items|] else at;
      Increasing(at', |items| + 1) && OfKind(items + [item], kind) == Picked(items + [item], at')
  {
    assert (items + [item])[..|items|] == items;
    assert Picked(items + [item], at) == Picked(items, at);
  }

  /** The items of a kind are exactly those of the breakdown, in its order. */
  lemma {:induction false} OfKindPositions(items: seq<Item>, kind: Kind) returns (at: seq<nat>)
    ensures Positions(items, kind, at)
  {
    if items == [] {
      at := [];
    } else {
      var before, item := items[..|items| - 1], items[|items| - 1];
      at := OfKindPositions(before, kind);
      assert items == before + [item];
      FindsNext(before, item, kind, at);
      PickedNext(before, item, kind, at);
      at := if item.kind == kind then at + [|before|] else at;
    }
  }

  /** The fixed items come first, then the percentages, each once and in the order of the breakdown. */
  lemma ChargedItems(items: seq<Item>) returns (fixed: seq<nat>, percentages: seq<nat>)
    ensures Increasing(fixed, |items|) && Finds(items, Fixed, fixed)
    ensures Increasing(percentages, |items|) && Finds(items, Percentage, percentages)
    ensures Charged(items) == Picked(items, fixed) + Picked(items, percentages)
  {
    fixed := OfKindPositions(items, Fixed);
    percentages := OfKindPositions(items, Percentage);
  }
}
