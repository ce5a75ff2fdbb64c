/** The amounts of a payment in the terms of its items: values, sums, percentages and rounding. */
module PaymentTotals {
  import opened Text
  import opened PaymentBreakdown

  // ---- Values ---------------------------------------------------------------------------------

  /** The text read as a decimal, or the fallback. */
  ghost predicate Reads(src: Source, s: string, fallback: real, x: real) {
    match src.parse(s)
    case Some(d) => x == d
    case None => x == fallback
  }

  lemma EmptyValue(src: Source, fallback: real)
    ensures ResolveValue(src, "", fallback) == fallback
  {
  }

  /** Anything that is not in braces is a literal. */
  lemma LiteralValue(src: Source, val: string, fallback: real)
    requires val != "" && !(val[0] == '{' && val[|val| - 1] == '}')
    ensures Reads(src, val, fallback, ResolveValue(src, val, fallback))
  {
  }

  /** The value of a path: a number, a text that is read, or the default. */
  ghost predicate GlobalReads(src: Source, path: string, default_: real, x: real) {
    match src.global(path)
    case Some(Number(n)) => x == n
    case Some(Str(s)) => Reads(src, s, default_, x)
    case _ => x == default_
  }

  /** A path alone falls back to what the field falls back to. */
  lemma PathValue(src: Source, path: string, fallback: real)
    requires ':' !in path
    ensures GlobalReads(src, path, fallback, ResolveValue(src, "{" + path + "}", fallback))
  {
    var val := "{" + path + "}";
    assert val[1..|val| - 1] == path;
    SplitOnPlain(path, ':');
  }

  /** A path with a default, which is read first; what follows a second colon is ignored. */
  lemma DefaultValue(src: Source, path: string, text: string, rest: string, fallback: real, default_: real)
    requires ':' !in path && ':' !in text && (rest == "" || rest[0] == ':')
    requires Reads(src, text, fallback, default_)
    ensures GlobalReads(src, path, default_, ResolveValue(src, "{" + (path + ":" + (text + rest)) + "}", fallback))
  {
    var inner := path + ":" + (text + rest);
    var val := "{" + inner + "}";
    assert val[1..|val| - 1] == inner;
    SplitOnFirst(path, text + rest, ':');
    if rest == "" {
      assert text + rest == text;
      SplitOnPlain(text, ':');
    } else {
      assert text + rest == text + [':'] + rest[1..];
      SplitOnFirst(text, rest[1..], ':');
    }
    assert SplitOn(inner, ':')[0] == path && SplitOn(inner, ':')[1] == text;
  }

  // ---- Amounts --------------------------------------------------------------------------------

  /** A fixed item costs quantity times price, whatever came before; the others a percentage of the total so far. */
  lemma AmountExact(src: Source, items: seq<Item>, k: nat)
    requires k < |items|
    ensures items[k].kind.Fixed? ==>
      AmountAt(src, items, k)
      == ResolveValue(src, items[k].quantity, 1.0) * ResolveValue(src, items[k].unitPrice, 0.0)
    ensures !items[k].kind.Fixed? ==>
      AmountAt(src, items, k) == src.percent(Times(SoFar(src, items, k), ResolveValue(src, items[k].value, 0.0)))
  {
    TotalIsDifference(src, items, k);
  }

  /** What the items before the k-th come to. */
  function SoFar(src: Source, items: seq<Item>, k: nat): real
    requires k <= |items|
  {
    SumOf(src, items, k, true) - SumOf(src, items, k, false)
  }

  /** Fixed additions with quantities and prices that are not negative. */
  ghost predicate Fees(src: Source, items: seq<Item>) {
    forall item | item in items ::
      && item.kind.Fixed? && item.category.Addition?
      && ResolveValue(src, item.quantity, 1.0) >= 0.0 && ResolveValue(src, item.unitPrice, 0.0) >= 0.0
  }

  lemma NonNegativeProduct(x: real, y: real)
    requires x >= 0.0 && y >= 0.0
    ensures x * y >= 0.0
  {
  }

  lemma FeeAdds(src: Source, items: seq<Item>, fee: Item)
    requires fee.kind.Fixed? && fee.category.Addition?
    requires ResolveValue(src, fee.quantity, 1.0) >= 0.0 && ResolveValue(src, fee.unitPrice, 0.0) >= 0.0
    ensures TotalAfter(src, items + [fee]) >= TotalAfter(src, items)
  {
    assert (items + [fee])[..|items|] == items;
    NonNegativeProduct(ResolveValue(src, fee.quantity, 1.0), ResolveValue(src, fee.unitPrice, 0.0));
  }

  /** Such items give a total that is not negative and does not fall with any of them. */
  lemma {:induction false} FeesAddUp(src: Source, items: seq<Item>, n: nat)
    requires Fees(src, items) && n <= |items|
    ensures TotalAfter(src, items[..n]) >= 0.0
    ensures n > 0 ==> TotalAfter(src, items[..n]) >= TotalAfter(src, items[..n - 1])
  {
    if n > 0 {
      FeesAddUp(src, items, n - 1);
      assert items[n - 1] in items && items[..n] == items[..n - 1] + [items[n - 1]];
      FeeAdds(src, items[..n - 1], items[n - 1]);
    }
  }

  // ---- Percentages compound -------------------------------------------------------------------

  /** What a percentage makes of the total, as a factor. */
  function Factor(src: Source, item: Item): real {
    var rate := ResolveValue(src, item.value, 0.0) / 100.0;
    if item.category.Addition? then 1.0 + rate else 1.0 - rate
  }

  function Product(src: Source, items: seq<Item>): real {
    if items == [] then 1.0 else Times(Product(src, items[..|items| - 1]), Factor(src, items[|items| - 1]))
  }

  lemma Scale(base: real, product: real, p: real)
    ensures var x := Times(base, product);
      && x + Times(x, p) / 100.0 == Times(base, Times(product, 1.0 + p / 100.0))
      && x - Times(x, p) / 100.0 == Times(base, Times(product, 1.0 - p / 100.0))
  {
    var x, q := base * product, p / 100.0;
    assert x * p / 100.0 == x * q;
    assert x * (1.0 + q) == x + x * q && x * (1.0 - q) == x - x * q;
    assert base * (product * (1.0 + q)) == x * (1.0 + q);
    assert base * (product * (1.0 - q)) == x * (1.0 - q);
  }

  lemma OneMore(src: Source, items: seq<Item>, last: Item)
    requires (forall x :: src.percent(x) == x / 100.0) && !last.kind.Fixed?
    ensures var total, p := TotalAfter(src, items), ResolveValue(src, last.value, 0.0);
      TotalAfter(src, items + [last])
      == if last.category.Addition? then total + Times(total, p) / 100.0 else total - Times(total, p) / 100.0
  {
    assert (items + [last])[..|items|] == items;
  }

  lemma Compounded(src: Source, items: seq<Item>, last: Item, base: real, product: real)
    requires (forall x :: src.percent(x) == x / 100.0) && !last.kind.Fixed?
    requires TotalAfter(src, items) == Times(base, product)
    ensures TotalAfter(src, items + [last]) == Times(base, Times(product, Factor(src, last)))
  {
    OneMore(src, items, last);
    Scale(base, product, ResolveValue(src, last.value, 0.0));
  }

  lemma {:induction false} Compounds(src: Source, fixed: seq<Item>, rates: seq<Item>)
    requires (forall x :: src.percent(x) == x / 100.0) && forall item | item in rates :: !item.kind.Fixed?
    ensures TotalAfter(src, fixed + rates) == Times(TotalAfter(src, fixed), Product(src, rates))
    decreases |rates|
  {
    var total := TotalAfter(src, fixed);
    if rates == [] {
      assert fixed + rates == fixed;
      TimesOne(total);
    } else {
      var before, last := rates[..|rates| - 1], rates[|rates| - 1];
      assert last in rates;
      Compounds(src, fixed, before);
      assert fixed + rates == (fixed + before) + [last];
      Compounded(src, fixed + before, last, total, Product(src, before));
    }
  }

  lemma TimesOne(x: real)
    ensures Times(x, 1.0) == x
  {
  }

  lemma {:induction false} OnlyKind(items: seq<Item>, kind: Kind)
    ensures forall item | item in OfKind(items, kind) :: item.kind == kind && item in items
  {
    if items != [] {
      OnlyKind(items[..|items| - 1], kind);
      assert items == items[..|items| - 1] + [items[|items| - 1]];
    }
  }

  /** With an exact division, the total is that of the fixed items times one factor for each percentage. */
  lemma CompoundedTotal(src: Source, breakdown: seq<Item>)
    requires forall x :: src.percent(x) == x / 100.0
    ensures TotalAfter(src, Charged(breakdown))
         == Times(TotalAfter(src, OfKind(breakdown, Fixed)), Product(src, OfKind(breakdown, Percentage)))
  {
    OnlyKind(breakdown, Percentage);
    Compounds(src, OfKind(breakdown, Fixed), OfKind(breakdown, Percentage));
  }

  // ---- Rounding -------------------------------------------------------------------------------

  /** The nearest multiple of a cent, the one further from zero when two are equally near. */
  lemma RoundExact(x: real) returns (cents: int)
    ensures Round2(x) == cents as real / 100.0
    ensures x >= 0.0 ==> cents as real - 0.5 <= x * 100.0 < cents as real + 0.5
    ensures x < 0.0 ==> cents as real - 0.5 < x * 100.0 <= cents as real + 0.5
  {
    if x >= 0.0 {
      cents := (x * 100.0 + 0.5).Floor;
    } else {
      cents := -((-x * 100.0 + 0.5).Floor);
    }
  }
}
