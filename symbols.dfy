/** `get_symbol_from_name`: turns what a caller typed into a Binance ticker.
    The names bitcoin/btc and ethereum/eth, in any case, are aliases of the
    USDT pairs; every other name is just upper-cased. */
module SymbolResolution {
  import opened Text

  const BitcoinTicker := "BTCUSDT"
  const EtherTicker := "ETHUSDT"

  predicate IsBitcoinAlias(lowered: string) { lowered == "bitcoin" || lowered == "btc" }

  predicate IsEtherAlias(lowered: string) { lowered == "ethereum" || lowered == "eth" }

  /** The ticker is one of the two alias pairs or the name itself in
      another case, and never holds a lower-case letter. */
  function SymbolFromName(name: string): (r: string)
    ensures r == BitcoinTicker || r == EtherTicker || SameUpToCase(r, name)
    ensures HasNoLower(r)
  {
    if IsBitcoinAlias(Lower(name)) then BitcoinTicker
    else if IsEtherAlias(Lower(name)) then EtherTicker
    else Upper(name)
  }

  lemma BitcoinTickerLowered()
    ensures Lower(BitcoinTicker) == "btcusdt"
  {
  }

  lemma BitcoinTickerRaised()
    ensures Upper("btcusdt") == BitcoinTicker
  {
  }

  /** The ticker is its own lower-case form upper-cased; the two directions
      are separate lemmas because proving them together costs the solver
      several times as much. */
  lemma BitcoinTickerCase()
    ensures Lower(BitcoinTicker) == "btcusdt" && Upper("btcusdt") == BitcoinTicker
  {
    BitcoinTickerLowered();
    BitcoinTickerRaised();
  }

  lemma EtherTickerLowered()
    ensures Lower(EtherTicker) == "ethusdt"
  {
  }

  lemma EtherTickerRaised()
    ensures Upper("ethusdt") == EtherTicker
  {
  }

  /** The ticker is its own lower-case form upper-cased; the two directions
      are separate lemmas because proving them together costs the solver
      several times as much. */
  lemma EtherTickerCase()
    ensures Lower(EtherTicker) == "ethusdt" && Upper("ethusdt") == EtherTicker
  {
    EtherTickerLowered();
    EtherTickerRaised();
  }

  /** Through the upper-casing fallback a name reaches a ticker exactly when
      its lower-case form is the ticker's. */
  lemma UpperReachesTicker(name: string, ticker: string, lowered: string)
    requires Lower(ticker) == lowered && Upper(lowered) == ticker
    ensures Upper(name) == ticker <==> Lower(name) == lowered
  {
    LowerOfUpper(name);
    UpperOfLower(name);
  }

  /** A name resolves to the bitcoin pair exactly when it is one of the two
      aliases, or the ticker itself, in any case. */
  lemma ResolvesToBitcoinIff(name: string)
    ensures SymbolFromName(name) == BitcoinTicker <==>
            Lower(name) in {"bitcoin", "btc", "btcusdt"}
  {
    if !IsBitcoinAlias(Lower(name)) && !IsEtherAlias(Lower(name)) {
      BitcoinTickerCase();
      UpperReachesTicker(name, BitcoinTicker, "btcusdt");
    }
  }

  /** The same for ether. */
  lemma ResolvesToEtherIff(name: string)
    ensures SymbolFromName(name) == EtherTicker <==>
            Lower(name) in {"ethereum", "eth", "ethusdt"}
  {
    if !IsBitcoinAlias(Lower(name)) && !IsEtherAlias(Lower(name)) {
      EtherTickerCase();
      UpperReachesTicker(name, EtherTicker, "ethusdt");
    }
  }

  /** Outside the aliases the name keeps its characters and only changes case. */
  lemma ResolveFallback(name: string)
    requires !IsBitcoinAlias(Lower(name)) && !IsEtherAlias(Lower(name))
    ensures SymbolFromName(name) == Upper(name)
    ensures SameUpToCase(SymbolFromName(name), name)
  {
    LowerOfUpper(name);
    SameUpToCaseIff(Upper(name), name);
  }

  /** Resolution ignores case altogether: names that differ only in the case of
      their letters resolve to the same ticker. */
  lemma ResolveIgnoresCase(a: string, b: string)
    requires SameUpToCase(a, b)
    ensures SymbolFromName(a) == SymbolFromName(b)
  {
    SameUpToCaseIff(a, b);
  }

  /** A resolved symbol never holds a lower-case letter. */
  lemma ResolvedHasNoLower(name: string)
    ensures HasNoLower(SymbolFromName(name))
  {
    UpperIsIdempotent(name);
  }

  /** Resolving an already resolved symbol changes nothing. */
  lemma ResolveIsIdempotent(name: string)
    ensures SymbolFromName(SymbolFromName(name)) == SymbolFromName(name)
  {
    var r := SymbolFromName(name);
    if r == BitcoinTicker {
      ResolvesToBitcoinIff(r);
      BitcoinTickerCase();
    } else if r == EtherTicker {
      ResolvesToEtherIff(r);
      EtherTickerCase();
    } else {
      assert r == Upper(name);
      LowerOfUpper(name);
      UpperIsIdempotent(name);
    }
  }
}
