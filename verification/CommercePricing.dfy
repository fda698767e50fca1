/**
 What a cart costs and how it splits: the quote computed from a snapshot of the cart, and the
 grouping of the order's lines by seller and supplier.
 */
module CommercePricing {
  import opened Basics
  import opened Inventory
  import opened Results
  import opened Sums

  /** A cart line with what its offer says about it. */
  datatype Priced = Priced(product: nat, seller: string, supplier: string, quantity: Quantity, unitPrice: nat)

  function Total(line: Priced): int { line.unitPrice * line.quantity }

  lemma TotalNonNegative(line: Priced)
    ensures Total(line) >= 0
  {
    var q: int := line.quantity;
    assert line.unitPrice * q >= 0;
  }

  // ----- grouping --------------------------------------------------------------------

  function GroupKey(seller: string, supplier: string): string { seller + ":" + supplier }

  function KeyOf(line: Priced): string { GroupKey(line.seller, line.supplier) }

  /** The group keys in order of first occurrence. */
  function Keys(lines: seq<Priced>): seq<string> {
    if |lines| == 0 then []
    else
      var earlier := Keys(lines[..|lines| - 1]);
      var key := KeyOf(lines[|lines| - 1]);
      if key in earlier then earlier else earlier + [key]
  }

  function TotalIf(line: Priced, key: string): int { if KeyOf(line) == key then Total(line) else 0 }

  function TotalUnder(key: string): Priced -> int { (line: Priced) => TotalIf(line, key) }

  function ShareOf(line: Priced): string -> int { (key: string) => TotalIf(line, key) }

  function SubtotalsOf(lines: seq<Priced>): string -> int { (key: string) => SumBy(lines, TotalUnder(key)) }

  /** The row numbers of a group's lines, counted from `base`. */
  function IdsUnder(lines: seq<Priced>, key: string, base: nat): seq<nat> {
    if |lines| == 0 then []
    else
      var n := |lines| - 1;
      IdsUnder(lines[..n], key, base) + if KeyOf(lines[n]) == key then [base + n] else []
  }

  datatype Group = Group(seller: string, supplier: string, subtotal: int, ids: seq<nat>)

  /** The group named by a key, as its first line opens it. */
  function GroupOf(lines: seq<Priced>, key: string, base: nat): Group
    requires key in Keys(lines)
  {
    var n := |lines| - 1;
    var earlier := lines[..n];
    if key !in Keys(earlier) then
      Group(lines[n].seller, lines[n].supplier, SumBy(lines, TotalUnder(key)), IdsUnder(lines, key, base))
    else
      GroupOf(earlier, key, base).(subtotal := SumBy(lines, TotalUnder(key)), ids := IdsUnder(lines, key, base))
  }

  function Groups(lines: seq<Priced>, base: nat): seq<Group> {
    var keys := Keys(lines);
    seq(|keys|, j requires 0 <= j < |keys| => GroupOf(lines, keys[j], base))
  }

  // ----- what grouping keeps ---------------------------------------------------------

  lemma {:induction false} KeysAreTheLinesKeys(lines: seq<Priced>)
    ensures Distinct(Keys(lines))
    ensures forall i :: 0 <= i < |lines| ==> KeyOf(lines[i]) in Keys(lines)
    ensures forall key :: key in Keys(lines) ==> exists i :: 0 <= i < |lines| && KeyOf(lines[i]) == key
  {
    if |lines| > 0 {
      var n := |lines| - 1;
      KeysAreTheLinesKeys(lines[..n]);
      forall key | key in Keys(lines) ensures exists i :: 0 <= i < |lines| && KeyOf(lines[i]) == key {
        if key in Keys(lines[..n]) {
          var i :| 0 <= i < n && KeyOf(lines[..n][i]) == key;
          assert KeyOf(lines[i]) == key;
        } else {
          assert KeyOf(lines[n]) == key;
        }
      }
    }
  }

  /** Keys seen as a set: as many splits as the quote counts. */
  function SplitCount(lines: seq<Priced>): nat {
    |set i | 0 <= i < |lines| :: KeyOf(lines[i])|
  }

  lemma {:induction false} DistinctCardinality<T(!new)>(s: seq<T>)
    requires Distinct(s)
    ensures |set x | x in s| == |s|
  {
    if |s| > 0 {
      var n := |s| - 1;
      DistinctCardinality(s[..n]);
      assert s == s[..n] + [s[n]];
      assert (set x | x in s) == (set x | x in s[..n]) + {s[n]};
    }
  }

  lemma GroupsAsManyAsQuoted(lines: seq<Priced>, base: nat)
    ensures |Groups(lines, base)| == SplitCount(lines)
  {
    KeysAreTheLinesKeys(lines);
    DistinctCardinality(Keys(lines));
    assert (set i | 0 <= i < |lines| :: KeyOf(lines[i])) == (set x | x in Keys(lines));
  }

  lemma {:induction false} SumOverKeys(keys: seq<string>, line: Priced)
    requires Distinct(keys)
    ensures SumBy(keys, ShareOf(line)) == if KeyOf(line) in keys then Total(line) else 0
  {
    if |keys| > 0 {
      var n := |keys| - 1;
      assert keys == keys[..n] + [keys[n]];
      assert keys[n] !in keys[..n];
      SumOverKeys(keys[..n], line);
      if KeyOf(line) == keys[n] {
        assert KeyOf(line) !in keys[..n];
      } else {
        assert KeyOf(line) in keys <==> KeyOf(line) in keys[..n];
      }
    }
  }

  /** Whatever distinct keys cover the lines, the groups' subtotals add up to all of the lines. */
  lemma {:induction false} SubtotalsCover(keys: seq<string>, lines: seq<Priced>)
    requires Distinct(keys)
    requires forall i :: 0 <= i < |lines| ==> KeyOf(lines[i]) in keys
    ensures SumBy(keys, SubtotalsOf(lines)) == SumBy(lines, Total)
  {
    if |lines| == 0 {
      SumByZero(keys, SubtotalsOf(lines));
    } else {
      var n := |lines| - 1;
      SubtotalsCover(keys, lines[..n]);
      SumOverKeys(keys, lines[n]);
      SumByAdd(keys, SubtotalsOf(lines[..n]), ShareOf(lines[n]), SubtotalsOf(lines));
    }
  }

  lemma {:induction false} GroupSubtotal(lines: seq<Priced>, key: string, base: nat)
    requires key in Keys(lines)
    ensures GroupOf(lines, key, base).subtotal == SumBy(lines, TotalUnder(key))
    ensures GroupOf(lines, key, base).ids == IdsUnder(lines, key, base)
  {
  }

  /** The splits' subtotals add up to the order's lines, cent for cent. */
  lemma GroupsSumToLines(lines: seq<Priced>, base: nat)
    ensures SumBy(Groups(lines, base), (g: Group) => g.subtotal) == SumBy(lines, Total)
  {
    var keys, groups := Keys(lines), Groups(lines, base);
    KeysAreTheLinesKeys(lines);
    SubtotalsCover(keys, lines);
    SumByPointwise(groups, (g: Group) => g.subtotal, keys, SubtotalsOf(lines));
  }

  lemma {:induction false} IdsUnderExact(lines: seq<Priced>, key: string, base: nat)
    ensures forall id: nat ::
      id in IdsUnder(lines, key, base) <==> base <= id < base + |lines| && KeyOf(lines[id - base]) == key
    ensures Distinct(IdsUnder(lines, key, base))
  {
    if |lines| > 0 {
      var n := |lines| - 1;
      IdsUnderExact(lines[..n], key, base);
      var ids, earlier := IdsUnder(lines, key, base), IdsUnder(lines[..n], key, base);
      forall k | 0 <= k < |earlier| ensures earlier[k] < base + n { assert earlier[k] in earlier; }
      forall id: nat
        ensures id in ids <==> base <= id < base + |lines| && KeyOf(lines[id - base]) == key
      {
        assert id in ids <==> id in earlier || (id == base + n && KeyOf(lines[n]) == key);
      }
    }
  }

  /** Every line lands in exactly one group, once, and that is the group of its key. */
  lemma EachLineInOneGroup(lines: seq<Priced>, base: nat, i: nat)
    requires i < |lines|
    ensures exists j :: 0 <= j < |Groups(lines, base)| && base + i in Groups(lines, base)[j].ids
    ensures forall j, k ::
      (&& 0 <= j < |Groups(lines, base)| && base + i in Groups(lines, base)[j].ids
       && 0 <= k < |Groups(lines, base)| && base + i in Groups(lines, base)[k].ids) ==> j == k
    ensures forall j :: 0 <= j < |Groups(lines, base)| ==> Distinct(Groups(lines, base)[j].ids)
  {
    var keys, groups := Keys(lines), Groups(lines, base);
    KeysAreTheLinesKeys(lines);
    forall j | 0 <= j < |groups|
      ensures Distinct(groups[j].ids) && (base + i in groups[j].ids <==> KeyOf(lines[i]) == keys[j])
    {
      IdsUnderExact(lines, keys[j], base);
    }
    var j :| 0 <= j < |keys| && keys[j] == KeyOf(lines[i]);
    assert base + i in groups[j].ids;
  }

  // ----- keys ------------------------------------------------------------------------

  predicate ColonFree(id: string) { ':' !in id }

  lemma FirstColon(seller: string, supplier: string)
    requires ColonFree(seller)
    ensures var key := GroupKey(seller, supplier);
      && key[|seller|] == ':'
      && forall i :: 0 <= i < |seller| ==> key[i] != ':'
  {
  }

  /** Identifiers without a colon, as UUIDs are, make the joined key tell pairs apart. */
  lemma GroupKeyInjective(seller1: string, supplier1: string, seller2: string, supplier2: string)
    requires ColonFree(seller1) && ColonFree(seller2)
    ensures GroupKey(seller1, supplier1) == GroupKey(seller2, supplier2) <==> seller1 == seller2 && supplier1 == supplier2
  {
    FirstColon(seller1, supplier1);
    FirstColon(seller2, supplier2);
    var k1, k2 := GroupKey(seller1, supplier1), GroupKey(seller2, supplier2);
    if k1 == k2 {
      assert |seller1| == |seller2|;
      assert k1[..|seller1|] == seller1 && k2[..|seller2|] == seller2;
      assert k1[|seller1| + 1..] == supplier1 && k2[|seller2| + 1..] == supplier2;
    }
  }

  /** So a split holds the lines of one seller and supplier, and all of them. */
  lemma {:induction false} GroupIsOneSupplier(lines: seq<Priced>, key: string, base: nat, i: nat)
    requires key in Keys(lines) && i < |lines|
    requires forall k :: 0 <= k < |lines| ==> ColonFree(lines[k].seller)
    ensures var g := GroupOf(lines, key, base);
      && ColonFree(g.seller) && key == GroupKey(g.seller, g.supplier)
      && (base + i in g.ids <==> lines[i].seller == g.seller && lines[i].supplier == g.supplier)
  {
    OpenedByItsKey(lines, key, base);
    IdsUnderExact(lines, key, base);
    GroupSubtotal(lines, key, base);
    var g := GroupOf(lines, key, base);
    GroupKeyInjective(lines[i].seller, lines[i].supplier, g.seller, g.supplier);
  }

  lemma {:induction false} OpenedByItsKey(lines: seq<Priced>, key: string, base: nat)
    requires key in Keys(lines)
    requires forall k :: 0 <= k < |lines| ==> ColonFree(lines[k].seller)
    ensures ColonFree(GroupOf(lines, key, base).seller)
    ensures key == GroupKey(GroupOf(lines, key, base).seller, GroupOf(lines, key, base).supplier)
  {
    var n := |lines| - 1;
    if key in Keys(lines[..n]) {
      OpenedByItsKey(lines[..n], key, base);
    }
  }

  // ----- promotion and quote ---------------------------------------------------------

  datatype PromotionKind = Percentage | Fixed

  datatype Promotion = Promotion(kind: PromotionKind, value: nat, minimum: nat, available: bool)

  /** A percentage promotion is never created above 100. */
  predicate ValidPromotion(p: Promotion) { p.value >= 1 && (p.kind.Percentage? ==> p.value <= 100) }

  datatype QuoteError = CartUnavailable | OfferChanged | PromotionUnavailable | NotSafe

  predicate Safe(n: int) { -MAX_SAFE_INTEGER <= n <= MAX_SAFE_INTEGER }

  function Min(a: int, b: int): int { if a <= b then a else b }

  /** `code` is the promotion row of the code that the buyer gave, if there is one. */
  function PromotionDiscount(code: Option<Option<Promotion>>, subtotal: nat): Result<int, QuoteError> {
    match code
    case None => Ok(0)
    case Some(None) => Err(PromotionUnavailable)
    case Some(Some(p)) =>
      if !p.available || p.minimum > subtotal then Err(PromotionUnavailable)
      else if p.kind.Fixed? then Ok(Min(subtotal, p.value))
      else
        var amount := (subtotal * p.value + 50) / 100;
        if Safe(amount) then Ok(Min(subtotal, amount)) else Err(NotSafe)
  }

  datatype Quote = Quote(subtotal: int, discount: int, tax: nat, shipping: nat, total: int, splitCount: nat)

  /** `tax` and `shipping` are the providers' answers, which are checked to be non-negative. */
  function CalculateQuote(lines: seq<Priced>, active: bool, offersUnchanged: bool,
                          code: Option<Option<Promotion>>, tax: nat, shipping: nat): Result<Quote, QuoteError> {
    if !active || |lines| == 0 then Err(CartUnavailable)
    else if !offersUnchanged then Err(OfferChanged)
    else
      var subtotal := SumBy(lines, Total);
      if !Safe(subtotal) || subtotal < 0 then Err(NotSafe)
      else
        match PromotionDiscount(code, subtotal)
        case Err(e) => Err(e)
        case Ok(discount) =>
          var total := subtotal - discount + tax + shipping;
          if Safe(total) then Ok(Quote(subtotal, discount, tax, shipping, total, SplitCount(lines))) else Err(NotSafe)
  }

  lemma LinesNonNegative(lines: seq<Priced>)
    ensures SumBy(lines, Total) >= 0
  {
    forall i | 0 <= i < |lines| ensures Total(lines[i]) >= 0 { TotalNonNegative(lines[i]); }
    SumByNonNegative(lines, Total);
  }

  lemma PercentageFits(subtotal: nat, value: nat)
    requires value <= 100
    ensures var amount := (subtotal * value + 50) / 100;
      && 0 <= amount <= subtotal
      && subtotal * value - 50 < 100 * amount <= subtotal * value + 50
  {
    assert 0 <= subtotal * value <= subtotal * 100;
  }

  /** A cart is quoted exactly while it is active, has lines that its offers still back, and its promotion applies. */
  lemma QuoteGoesThrough(lines: seq<Priced>, active: bool, offersUnchanged: bool,
                         code: Option<Option<Promotion>>, tax: nat, shipping: nat)
    requires code.Some? && code.value.Some? ==> ValidPromotion(code.value.value)
    requires SumBy(lines, Total) + tax + shipping <= MAX_SAFE_INTEGER
    ensures CalculateQuote(lines, active, offersUnchanged, code, tax, shipping).Ok? <==>
      && active && |lines| > 0 && offersUnchanged
      && (code.Some? ==> code.value.Some? && code.value.value.available && code.value.value.minimum <= SumBy(lines, Total))
  {
    LinesNonNegative(lines);
    if code.Some? && code.value.Some? && code.value.value.kind.Percentage? {
      PercentageFits(SumBy(lines, Total), code.value.value.value);
    }
  }

  /**
   A quote never discounts more than the goods cost, so the buyer pays at least tax and shipping;
   a percentage is rounded to the nearest minor unit, halves up; a fixed discount is capped.
   */
  lemma QuoteIsFair(lines: seq<Priced>, code: Option<Option<Promotion>>, tax: nat, shipping: nat)
    requires CalculateQuote(lines, true, true, code, tax, shipping).Ok?
    requires code.Some? && code.value.Some? ==> ValidPromotion(code.value.value)
    ensures var q := CalculateQuote(lines, true, true, code, tax, shipping).value;
      && 0 <= q.discount <= q.subtotal == SumBy(lines, Total)
      && q.total >= tax + shipping
      && q.total + q.discount == q.subtotal + tax + shipping && q.tax == tax && q.shipping == shipping
      && (code.None? ==> q.discount == 0)
      && (code.Some? && code.value.Some? ==>
           var p := code.value.value;
           if p.kind.Fixed? then q.discount == p.value || q.discount == q.subtotal < p.value
           else q.subtotal * p.value - 50 < 100 * q.discount <= q.subtotal * p.value + 50)
  {
    LinesNonNegative(lines);
    if code.Some? && code.value.Some? && code.value.value.kind.Percentage? {
      PercentageFits(SumBy(lines, Total), code.value.value.value);
    }
  }
}
