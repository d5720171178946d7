/**
 * Distribution of the account's net result over its closing fills.
 *
 * Fills are grouped by symbol, every group has a net of its own (price result minus
 * commission plus funding, a function handed in from outside), and the difference
 * between gross and net is spread over the closing fills.
 */
module AccountNet {
  import opened Common

  datatype Fill = Fill(symbol: string, amount: real, realized: Option<real>)

  /** The per-symbol net: funding and commission are part of what this function knows. */
  type NetOf = (string, seq<Fill>) -> real

  function Realized(f: Fill): real {
    if f.realized.Some? then f.realized.value else 0.0
  }

  function Gross(fs: seq<Fill>): real {
    if fs == [] then 0.0 else Gross(fs[..|fs| - 1]) + Realized(fs[|fs| - 1])
  }

  function Quantity(fs: seq<Fill>): real {
    if fs == [] then 0.0 else Quantity(fs[..|fs| - 1]) + fs[|fs| - 1].amount
  }

  function Sum(xs: seq<real>): real {
    if xs == [] then 0.0 else Sum(xs[..|xs| - 1]) + xs[|xs| - 1]
  }

  predicate IsClose(f: Fill) {
    f.realized.Some? && f.realized.value != 0.0
  }

  function Closes(fs: seq<Fill>): seq<Fill> {
    if fs == [] then []
    else Closes(fs[..|fs| - 1]) + if IsClose(fs[|fs| - 1]) then [fs[|fs| - 1]] else []
  }

  function OfSymbol(fs: seq<Fill>, symbol: string): seq<Fill> {
    if fs == [] then []
    else OfSymbol(fs[..|fs| - 1], symbol) + if fs[|fs| - 1].symbol == symbol then [fs[|fs| - 1]] else []
  }

  /** The symbols traded, each once, in order of first appearance. */
  function Symbols(fs: seq<Fill>): seq<string> {
    if fs == [] then []
    else
      var before := Symbols(fs[..|fs| - 1]);
      if fs[|fs| - 1].symbol in before then before else before + [fs[|fs| - 1].symbol]
  }

  /** The account net: one net per symbol, over exactly that symbol's fills. */
  function NetOver(net: NetOf, symbols: seq<string>, fs: seq<Fill>): real {
    if symbols == [] then 0.0
    else
      var last := symbols[|symbols| - 1];
      NetOver(net, symbols[..|symbols| - 1], fs) + net(last, OfSymbol(fs, last))
  }

  function GrossOver(symbols: seq<string>, fs: seq<Fill>): real {
    if symbols == [] then 0.0
    else GrossOver(symbols[..|symbols| - 1], fs) + Gross(OfSymbol(fs, symbols[|symbols| - 1]))
  }

  function AccountTotal(net: NetOf, fs: seq<Fill>): real {
    NetOver(net, Symbols(fs), fs)
  }

  /** The weight of one close: by quantity when quantity was closed, else equal. */
  function Share(closes: seq<Fill>, f: Fill): real
    requires closes != []
  {
    if Quantity(closes) > 0.0 then f.amount / Quantity(closes) else 1.0 / (|closes| as real)
  }

  lemma {:induction false} SymbolsDistinct(fs: seq<Fill>)
    ensures Distinct(Symbols(fs))
  {
    if fs != [] { SymbolsDistinct(fs[..|fs| - 1]); }
  }

  lemma GrossOfOneMore(group: seq<Fill>, f: Fill)
    ensures Gross(group + [f]) == Gross(group) + Realized(f)
  {
    assert (group + [f])[..|group|] == group;
  }

  /** What the last fill adds to a symbol's gross. */
  function Part(f: Fill, symbol: string): real {
    if f.symbol == symbol then Realized(f) else 0.0
  }

  lemma GroupGrossExtends(fs: seq<Fill>, symbol: string)
    requires fs != []
    ensures Gross(OfSymbol(fs, symbol)) == Gross(OfSymbol(fs[..|fs| - 1], symbol)) + Part(fs[|fs| - 1], symbol)
  {
    var group, f := OfSymbol(fs[..|fs| - 1], symbol), fs[|fs| - 1];
    if f.symbol == symbol {
      assert OfSymbol(fs, symbol) == group + [f];
      GrossOfOneMore(group, f);
    } else {
      assert OfSymbol(fs, symbol) == group + [] == group;
    }
  }

  lemma LastApart(symbols: seq<string>, symbol: string)
    requires symbols != [] && Distinct(symbols)
    ensures var init, last := symbols[..|symbols| - 1], symbols[|symbols| - 1];
            Distinct(init) && last !in init && (symbol in symbols <==> symbol in init || symbol == last)
  {
    assert symbols == symbols[..|symbols| - 1] + [symbols[|symbols| - 1]];
  }

  /** The last fill adds its result to the sum over any distinct symbols that mention it. */
  lemma {:induction false} GrossOverExtend(symbols: seq<string>, fs: seq<Fill>)
    requires Distinct(symbols) && fs != []
    ensures GrossOver(symbols, fs)
         == GrossOver(symbols, fs[..|fs| - 1]) + if fs[|fs| - 1].symbol in symbols then Realized(fs[|fs| - 1]) else 0.0
  {
    if symbols != [] {
      var init, last := symbols[..|symbols| - 1], symbols[|symbols| - 1];
      LastApart(symbols, fs[|fs| - 1].symbol);
      GrossOverExtend(init, fs);
      GroupGrossExtends(fs, last);
    }
  }

  lemma {:induction false} UnseenSymbolHasNoFills(fs: seq<Fill>, symbol: string)
    requires symbol !in Symbols(fs)
    ensures OfSymbol(fs, symbol) == []
  {
    if fs != [] { UnseenSymbolHasNoFills(fs[..|fs| - 1], symbol); }
  }

  lemma NewSymbolStartsAtZero(symbols: seq<string>, fs: seq<Fill>, symbol: string)
    requires symbol !in Symbols(fs)
    ensures GrossOver(symbols + [symbol], fs) == GrossOver(symbols, fs)
  {
    UnseenSymbolHasNoFills(fs, symbol);
    assert (symbols + [symbol])[..|symbols|] == symbols;
  }

  /** Grouping loses nothing: the symbol totals add up to the total of all fills. */
  lemma {:induction false} RegroupConserves(fs: seq<Fill>)
    ensures GrossOver(Symbols(fs), fs) == Gross(fs)
  {
    if fs != [] {
      var init, f := fs[..|fs| - 1], fs[|fs| - 1];
      RegroupConserves(init);
      SymbolsDistinct(fs);
      GrossOverExtend(Symbols(fs), fs);
      if f.symbol !in Symbols(init) {
        NewSymbolStartsAtZero(Symbols(init), init, f.symbol);
      }
    }
  }

  /** Fills that close nothing carry no price result. */
  lemma {:induction false} ClosesCarryTheGross(fs: seq<Fill>)
    ensures Gross(Closes(fs)) == Gross(fs)
    ensures forall f :: f in Closes(fs) ==> IsClose(f)
  {
    if fs != [] {
      var init, f := fs[..|fs| - 1], fs[|fs| - 1];
      ClosesCarryTheGross(init);
      var c := Closes(init);
      assert (c + [f])[..|c|] == c;
      assert c + [] == c;
    }
  }

  function NetOfClose(closes: seq<Fill>, adjustment: real, f: Fill): real
    requires closes != []
  {
    Realized(f) - adjustment * Share(closes, f)
  }

  /** The nets the distribution gives to a prefix of the closes. */
  function Nets(closes: seq<Fill>, adjustment: real, n: nat): (nets: seq<real>)
    requires closes != [] && n <= |closes|
    ensures |nets| == n
  {
    seq(n, i requires 0 <= i < n => NetOfClose(closes, adjustment, closes[i]))
  }

  function Shares(closes: seq<Fill>, n: nat): real
    requires closes != [] && n <= |closes|
  {
    if n == 0 then 0.0 else Shares(closes, n - 1) + Share(closes, closes[n - 1])
  }

  lemma Distribute(a: real, x: real, y: real)
    ensures a * (x + y) == a * x + a * y
  {}

  lemma AddQuotients(x: real, y: real, d: real)
    requires d != 0.0
    ensures (x + y) / d == x / d + y / d
  {}

  lemma SelfQuotient(d: real)
    requires d != 0.0
    ensures d / d == 1.0
  {}

  lemma {:induction false} SharesByQuantity(closes: seq<Fill>, n: nat)
    requires closes != [] && n <= |closes| && Quantity(closes) > 0.0
    ensures Shares(closes, n) == Quantity(closes[..n]) / Quantity(closes)
  {
    if n > 0 {
      SharesByQuantity(closes, n - 1);
      assert closes[..n][..n - 1] == closes[..n - 1];
      AddQuotients(Quantity(closes[..n - 1]), closes[n - 1].amount, Quantity(closes));
    }
  }

  lemma {:induction false} SharesEqual(closes: seq<Fill>, n: nat)
    requires closes != [] && n <= |closes| && Quantity(closes) <= 0.0
    ensures Shares(closes, n) == n as real / |closes| as real
  {
    if n > 0 {
      SharesEqual(closes, n - 1);
      AddQuotients((n - 1) as real, 1.0, |closes| as real);
    }
  }

  /** Both weightings hand out exactly one whole, whatever the sign of the amounts. */
  lemma SharesAreOneWhole(closes: seq<Fill>)
    requires closes != []
    ensures Shares(closes, |closes|) == 1.0
  {
    assert closes[..|closes|] == closes;
    if Quantity(closes) > 0.0 {
      SharesByQuantity(closes, |closes|);
      SelfQuotient(Quantity(closes));
    } else {
      SharesEqual(closes, |closes|);
      SelfQuotient(|closes| as real);
    }
  }

  lemma NetsExtend(closes: seq<Fill>, adjustment: real, n: nat)
    requires 0 < n <= |closes|
    ensures Sum(Nets(closes, adjustment, n))
         == Sum(Nets(closes, adjustment, n - 1)) + NetOfClose(closes, adjustment, closes[n - 1])
    ensures Gross(closes[..n]) == Gross(closes[..n - 1]) + Realized(closes[n - 1])
  {
    assert Nets(closes, adjustment, n)[..n - 1] == Nets(closes, adjustment, n - 1);
    assert closes[..n][..n - 1] == closes[..n - 1];
  }

  lemma {:induction false} NetsSum(closes: seq<Fill>, adjustment: real, n: nat)
    requires closes != [] && n <= |closes|
    ensures Sum(Nets(closes, adjustment, n)) == Gross(closes[..n]) - adjustment * Shares(closes, n)
  {
    if n > 0 {
      NetsSum(closes, adjustment, n - 1);
      NetsExtend(closes, adjustment, n);
      Distribute(adjustment, Shares(closes, n - 1), Share(closes, closes[n - 1]));
    }
  }

  lemma NetsSumToGrossLessAdjustment(closes: seq<Fill>, adjustment: real)
    requires closes != []
    ensures Sum(Nets(closes, adjustment, |closes|)) == Gross(closes) - adjustment
  {
    NetsSum(closes, adjustment, |closes|);
    SharesAreOneWhole(closes);
    assert closes[..|closes|] == closes;
  }

  /**
   * Conservation: however many symbols, whatever their nets and whatever the sign of
   * the amounts, the distributed nets add up to the account net.
   */
  lemma NetsSumToAccountTotal(net: NetOf, fs: seq<Fill>)
    requires Closes(fs) != []
    ensures Sum(Nets(Closes(fs), Gross(fs) - AccountTotal(net, fs), |Closes(fs)|)) == AccountTotal(net, fs)
  {
    var closes, adjustment := Closes(fs), Gross(fs) - AccountTotal(net, fs);
    assert Gross(closes) == Gross(fs) by { ClosesCarryTheGross(fs); }
    NetsSumToGrossLessAdjustment(closes, adjustment);
  }

  // ----- What goes into it --------------------------------------------------------------

  /** The closes are the fills with a result other than zero, each as often as it was filled. */
  lemma {:induction false} ClosesAreFillsWithAResult(fs: seq<Fill>, f: Fill)
    ensures multiset(Closes(fs))[f]
         == if f.realized.Some? && f.realized.value != 0.0 then multiset(fs)[f] else 0
  {
    if fs != [] {
      var init, last := fs[..|fs| - 1], fs[|fs| - 1];
      ClosesAreFillsWithAResult(init, f);
      assert multiset(fs) == multiset(init) + multiset{last} by { assert fs == init + [last]; }
      assert Closes(fs) == if IsClose(last) then Closes(init) + [last] else Closes(init);
    }
  }

  /** A group has its symbol's fills, each as often as it was filled. */
  lemma {:induction false} GroupsAreExact(fs: seq<Fill>, symbol: string, f: Fill)
    ensures multiset(OfSymbol(fs, symbol))[f] == if f.symbol == symbol then multiset(fs)[f] else 0
  {
    if fs != [] {
      var init, last := fs[..|fs| - 1], fs[|fs| - 1];
      GroupsAreExact(init, symbol, f);
      assert multiset(fs) == multiset(init) + multiset{last} by { assert fs == init + [last]; }
      assert OfSymbol(fs, symbol)
          == if last.symbol == symbol then OfSymbol(init, symbol) + [last] else OfSymbol(init, symbol);
    }
  }

  /** A symbol is listed if and only if it was traded. */
  lemma {:induction false} SymbolsAreTraded(fs: seq<Fill>, symbol: string)
    ensures symbol in Symbols(fs) <==> exists f :: f in fs && f.symbol == symbol
  {
    if fs != [] {
      var init, last := fs[..|fs| - 1], fs[|fs| - 1];
      SymbolsAreTraded(init, symbol);
      assert forall f :: f in fs <==> f in init || f == last;
    }
  }

  /** Fills keep their order: what is selected from two stretches is selected from one after the other. */
  lemma {:induction false} ClosesKeepOrder(a: seq<Fill>, b: seq<Fill>)
    ensures Closes(a + b) == Closes(a) + Closes(b)
  {
    if b == [] {
      assert a + b == a;
    } else {
      var init, last := b[..|b| - 1], b[|b| - 1];
      ClosesKeepOrder(a, init);
      assert (a + b)[..|a + b| - 1] == a + init;
      Associate(Closes(a), Closes(init), if IsClose(last) then [last] else []);
    }
  }

  lemma {:induction false} GroupsKeepOrder(a: seq<Fill>, b: seq<Fill>, symbol: string)
    ensures OfSymbol(a + b, symbol) == OfSymbol(a, symbol) + OfSymbol(b, symbol)
  {
    if b == [] {
      assert a + b == a;
    } else {
      var init, last := b[..|b| - 1], b[|b| - 1];
      GroupsKeepOrder(a, init, symbol);
      assert (a + b)[..|a + b| - 1] == a + init;
      Associate(OfSymbol(a, symbol), OfSymbol(init, symbol), if last.symbol == symbol then [last] else []);
    }
  }

  /** Symbols are listed in the order in which they were first traded. */
  lemma {:induction false} SymbolsKeepOrder(a: seq<Fill>, b: seq<Fill>)
    ensures Symbols(a) <= Symbols(a + b)
  {
    if b == [] {
      assert a + b == a;
    } else {
      SymbolsKeepOrder(a, b[..|b| - 1]);
      assert (a + b)[..|a + b| - 1] == a + b[..|b| - 1];
    }
  }

  lemma Associate(a: seq<Fill>, b: seq<Fill>, c: seq<Fill>)
    ensures (a + b) + c == a + (b + c)
  {}

  /** The account net is the sum of one net per symbol, each over that symbol's fills. */
  lemma {:induction false} NetOverIsSum(net: NetOf, symbols: seq<string>, fs: seq<Fill>)
    ensures NetOver(net, symbols, fs) == Sum(SymbolNets(net, symbols, fs))
  {
    if symbols != [] {
      NetOverIsSum(net, symbols[..|symbols| - 1], fs);
      assert SymbolNets(net, symbols, fs)[..|symbols| - 1] == SymbolNets(net, symbols[..|symbols| - 1], fs);
    }
  }

  function SymbolNets(net: NetOf, symbols: seq<string>, fs: seq<Fill>): seq<real> {
    seq(|symbols|, i requires 0 <= i < |symbols| => net(symbols[i], OfSymbol(fs, symbols[i])))
  }

  /** Whether a close bears that part of the whole of an adjustment. */
  predicate Bears(own: real, net: real, adjustment: real, part: real, whole: real) {
    (own - net) * whole == adjustment * part
  }

  lemma ShareIsBorne(own: real, net: real, adjustment: real, part: real, whole: real, share: real)
    requires whole != 0.0 && share == part / whole && net == own - adjustment * share
    ensures Bears(own, net, adjustment, part, whole)
  {
    assert share * whole == part;
    assert adjustment * share * whole == adjustment * (share * whole);
  }

  /**
   * What a close bears of the adjustment: in proportion to its quantity if the closes have
   * any, else all bear the same.
   */
  lemma EachCloseBearsItsShare(closes: seq<Fill>, adjustment: real, i: nat)
    requires i < |closes| && closes[i].realized.Some?
    ensures var own, net := closes[i].realized.value, Nets(closes, adjustment, |closes|)[i];
            if Quantity(closes) > 0.0 then Bears(own, net, adjustment, closes[i].amount, Quantity(closes))
            else Bears(own, net, adjustment, 1.0, |closes| as real)
  {
    var own, net, share := closes[i].realized.value, Nets(closes, adjustment, |closes|)[i], Share(closes, closes[i]);
    if Quantity(closes) > 0.0 {
      ShareIsBorne(own, net, adjustment, closes[i].amount, Quantity(closes), share);
    } else {
      ShareIsBorne(own, net, adjustment, 1.0, |closes| as real, share);
    }
  }

  // ----- The service's loops ------------------------------------------------------------

  method GroupBySymbol(fills: seq<Fill>) returns (order: seq<string>, groups: map<string, seq<Fill>>)
    ensures order == Symbols(fills)
    ensures groups.Keys == set s | s in order
    ensures forall s :: s in groups ==> groups[s] == OfSymbol(fills, s)
  {
    order, groups := [], map[];
    for i := 0 to |fills|
      invariant order == Symbols(fills[..i])
      invariant groups.Keys == set s | s in order
      invariant forall s :: s in groups ==> groups[s] == OfSymbol(fills[..i], s)
    {
      var fill := fills[i];
      assert fills[..i + 1][..i] == fills[..i];
      if fill.symbol !in groups {
        UnseenSymbolHasNoFills(fills[..i], fill.symbol);
        order := order + [fill.symbol];
        groups := groups[fill.symbol := []];
      }
      groups := groups[fill.symbol := groups[fill.symbol] + [fill]];
    }
    assert fills[..|fills|] == fills;
  }

  /** The two totals of the grouping loop: the account net and the gross of all fills. */
  method Totals(fills: seq<Fill>, net: NetOf) returns (accountNet: real, grossTotal: real)
    ensures accountNet == AccountTotal(net, fills)
    ensures grossTotal == Gross(fills)
  {
    var order, groups := GroupBySymbol(fills);
    accountNet, grossTotal := 0.0, 0.0;
    for i := 0 to |order|
      invariant accountNet == NetOver(net, order[..i], fills)
      invariant grossTotal == GrossOver(order[..i], fills)
    {
      assert order[..i + 1][..i] == order[..i];
      var symbol := order[i];
      accountNet := accountNet + net(symbol, groups[symbol]);
      var subtotal := SumRealized(groups[symbol]);
      grossTotal := grossTotal + subtotal;
    }
    assert order[..|order|] == order;
    RegroupConserves(fills);
  }

  /** One net per closing fill, in fill order; nothing when no fill closed anything. */
  method AccountTradesForHealth(fills: seq<Fill>, net: NetOf) returns (nets: seq<real>)
    ensures |nets| == |Closes(fills)|
    ensures nets != [] ==> Sum(nets) == AccountTotal(net, fills)
    ensures nets != [] ==> nets == Nets(Closes(fills), Gross(fills) - AccountTotal(net, fills), |nets|)
  {
    if fills == [] { return []; }
    var accountNet, grossTotal := Totals(fills, net);
    var closes := SelectCloses(fills);
    if closes == [] { return []; }
    ClosesCarryTheGross(fills);
    nets := Distribution(closes, grossTotal - accountNet);
    NetsSumToAccountTotal(net, fills);
  }

  method Distribution(closes: seq<Fill>, adjustment: real) returns (nets: seq<real>)
    requires closes != [] && forall f :: f in closes ==> IsClose(f)
    ensures nets == Nets(closes, adjustment, |closes|)
  {
    var totalCloseQty := SumAmounts(closes);
    nets := [];
    for i := 0 to |closes|
      invariant nets == Nets(closes, adjustment, i)
    {
      assert closes[i] in closes;
      var share := if totalCloseQty > 0.0 then closes[i].amount / totalCloseQty else 1.0 / (|closes| as real);
      var netOfClose := closes[i].realized.value - adjustment * share;
      assert netOfClose == NetOfClose(closes, adjustment, closes[i]);
      nets := nets + [netOfClose];
    }
  }

  method SumRealized(fills: seq<Fill>) returns (total: real)
    ensures total == Gross(fills)
  {
    total := 0.0;
    for i := 0 to |fills|
      invariant total == Gross(fills[..i])
    {
      assert fills[..i + 1][..i] == fills[..i];
      if fills[i].realized.Some? { total := total + fills[i].realized.value; }
    }
    assert fills[..|fills|] == fills;
  }

  method SumAmounts(fills: seq<Fill>) returns (total: real)
    ensures total == Quantity(fills)
  {
    total := 0.0;
    for i := 0 to |fills|
      invariant total == Quantity(fills[..i])
    {
      assert fills[..i + 1][..i] == fills[..i];
      total := total + fills[i].amount;
    }
    assert fills[..|fills|] == fills;
  }

  method SelectCloses(fills: seq<Fill>) returns (closes: seq<Fill>)
    ensures closes == Closes(fills)
  {
    closes := [];
    for i := 0 to |fills|
      invariant closes == Closes(fills[..i])
    {
      assert fills[..i + 1][..i] == fills[..i];
      if fills[i].realized.Some? && fills[i].realized.value != 0.0 { closes := closes + [fills[i]]; }
    }
    assert fills[..|fills|] == fills;
  }
}
