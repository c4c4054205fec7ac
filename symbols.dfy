/** Ticker normalisation: a symbol without an exchange suffix is sent to the NSE. */
module Symbols {

  const NseSuffix := ".NS"
  const BseSuffix := ".BO"

  predicate EndsWith(s: string, suffix: string) {
    |suffix| <= |s| && s[|s| - |suffix|..] == suffix
  }

  predicate HasExchangeSuffix(s: string) {
    EndsWith(s, NseSuffix) || EndsWith(s, BseSuffix)
  }

  /** Appends ".NS" unless the symbol already ends in ".NS" or ".BO"; case is left alone. */
  function NormalizeSymbol(symbol: string): (r: string)
    ensures HasExchangeSuffix(r)
    ensures HasExchangeSuffix(symbol) ==> r == symbol
    ensures !HasExchangeSuffix(symbol) ==> r == symbol + NseSuffix && EndsWith(r, NseSuffix)
  {
    if HasExchangeSuffix(symbol) then symbol
    else
      var r := symbol + NseSuffix;
      assert r[|r| - |NseSuffix|..] == NseSuffix;
      r
  }

  lemma NormalizeIdempotent(symbol: string)
    ensures NormalizeSymbol(NormalizeSymbol(symbol)) == NormalizeSymbol(symbol)
  {
  }
}
