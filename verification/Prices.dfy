/** Exact prices and floor conversion between assets. */
module Prices {
  import opened Wrappers
  import opened Arithmetic
  import opened Ledger

  datatype Asset = Asset(amount: int, id: AssetId)

  /** A rate of `base` units of one asset per `quote` units of the other. */
  datatype Price = Price(base: int, baseAsset: AssetId, quote: int, quoteAsset: AssetId)

  predicate ValidPrice(p: Price) {
    p.base > 0 && p.quote > 0 && p.baseAsset != p.quoteAsset
  }

  function Inverse(p: Price): Price {
    Price(p.quote, p.quoteAsset, p.base, p.baseAsset)
  }

  /** The order of prices: by the two assets first, then by cross multiplication. */
  predicate Less(p: Price, q: Price) {
    if p.baseAsset != q.baseAsset then p.baseAsset < q.baseAsset
    else if p.quoteAsset != q.quoteAsset then p.quoteAsset < q.quoteAsset
    else p.base * q.quote < q.base * p.quote
  }

  /** The highest price of a market. */
  function MaxPrice(base: AssetId, quote: AssetId): Price {
    Price(MAX_SHARE_SUPPLY, base, 1, quote)
  }

  /** Convert and round down; fails on a foreign asset, a zero divisor or an overflow. */
  function Times(a: Asset, p: Price): Option<Asset> {
    if a.amount < 0 then None
    else if a.id == p.baseAsset then
      if p.base <= 0 || a.amount * p.quote / p.base > MAX_SHARE_SUPPLY then None
      else Some(Asset(a.amount * p.quote / p.base, p.quoteAsset))
    else if a.id == p.quoteAsset then
      if p.quote <= 0 || a.amount * p.base / p.quote > MAX_SHARE_SUPPLY then None
      else Some(Asset(a.amount * p.base / p.quote, p.baseAsset))
    else None
  }

  lemma Ratios(a1: int, a2: int, b1: int, b2: int, c1: int, c2: int)
    requires a2 > 0 && b2 > 0 && c2 > 0
    requires a1 * b2 <= b1 * a2 && b1 * c2 <= c1 * b2
    ensures a1 * c2 <= c1 * a2
    ensures a1 * b2 < b1 * a2 || b1 * c2 < c1 * b2 ==> a1 * c2 < c1 * a2
  {
    MulMono(a1 * b2, b1 * a2, c2);
    MulMono(b1 * c2, c1 * b2, a2);
    MulSwap(a1, b2, c2);
    MulSwap(b1, a2, c2);
    MulSwap(c1, b2, a2);
    MulCancel(a1 * c2, c1 * a2, b2);
    if a1 * b2 < b1 * a2 || b1 * c2 < c1 * b2 {
      if a1 * b2 < b1 * a2 {
        MulMono(a1 * b2 + 1, b1 * a2, c2);
      } else {
        MulMono(b1 * c2 + 1, c1 * b2, a2);
      }
      assert (a1 * c2) * b2 < (c1 * a2) * b2;
    }
  }

  /** Prices are ordered: not-greater chains, strictly if one link is strict. */
  lemma LessTransitive(p: Price, q: Price, r: Price)
    requires p.quote > 0 && q.quote > 0 && r.quote > 0
    requires !Less(q, p) && !Less(r, q)
    ensures !Less(r, p)
    ensures Less(p, q) || Less(q, r) ==> Less(p, r)
  {
    if p.baseAsset == q.baseAsset == r.baseAsset && p.quoteAsset == q.quoteAsset == r.quoteAsset {
      Ratios(p.base, p.quote, q.base, q.quote, r.base, r.quote);
    }
  }
}
