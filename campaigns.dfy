/**
 The pure half of the Home view: turning the campaign records the ledger
 returns into display campaigns (positional id, amounts in TRX, integer
 deadline), deciding which are still open, and the image URL of a campaign.
 Amounts are exact reals: the binary rounding of `parseFloat` is not modelled.
 */
module Campaigns {

  /** Sun per TRX: the ledger stores amounts in sun. */
  const SunPerTrx: real := 1000000.0

  /** Margin below the target at which a campaign already counts as funded. */
  const Tolerance: real := 0.0001

  const GatewayPrefix: string := "https://gateway.pinata.cloud/ipfs/"
  const PlaceholderUrl: string := "https://via.placeholder.com/200x200?text=No+Image"

  /** A campaign record as the contract's `getCampaigns()` returns it. */
  datatype RawCampaign = RawCampaign(
    owner: string,
    title: string,
    description: string,
    image: string,
    target: nat,
    amountCollected: nat,
    deadline: int)

  /** A campaign as the Home view holds it. */
  datatype Campaign = Campaign(
    id: nat,
    owner: string,
    title: string,
    description: string,
    image: string,
    target: real,
    amountCollected: real,
    deadline: int)

  /** `tronWeb.fromSun`: sun to TRX. */
  function FromSun(sun: nat): (trx: real)
    ensures trx >= 0.0
    ensures trx * SunPerTrx == sun as real
  {
    sun as real / SunPerTrx
  }

  /** `tronWeb.toSun`: TRX to sun, the inverse of `FromSun`. */
  function ToSun(trx: real): (sun: real)
    ensures sun / SunPerTrx == trx
    ensures sun > 0.0 <==> trx > 0.0
  {
    trx * SunPerTrx
  }

  /** One record of the fetched list, at position `index`. */
  function Normalize(raw: RawCampaign, index: nat): (c: Campaign)
    ensures c.id == index
    ensures c.target * SunPerTrx == raw.target as real
    ensures c.amountCollected * SunPerTrx == raw.amountCollected as real
    ensures c.deadline == raw.deadline
    ensures c.owner == raw.owner && c.title == raw.title
    ensures c.description == raw.description && c.image == raw.image
  {
    Campaign(index, raw.owner, raw.title, raw.description, raw.image,
             FromSun(raw.target), FromSun(raw.amountCollected), raw.deadline)
  }

  /** The whole fetched list, each record given its position as id. */
  function NormalizeAll(raws: seq<RawCampaign>): (cs: seq<Campaign>)
    ensures |cs| == |raws|
    ensures forall i | 0 <= i < |cs| :: cs[i].id == i
    ensures forall i | 0 <= i < |cs| ::
      && cs[i].target * SunPerTrx == raws[i].target as real
      && cs[i].amountCollected * SunPerTrx == raws[i].amountCollected as real
      && cs[i].deadline == raws[i].deadline
    ensures forall i | 0 <= i < |cs| ::
      && cs[i].owner == raws[i].owner && cs[i].title == raws[i].title
      && cs[i].description == raws[i].description && cs[i].image == raws[i].image
  {
    seq(|raws|, i requires 0 <= i < |raws| => Normalize(raws[i], i))
  }

  /** Still collecting: short of the target by more than the tolerance, and before the deadline. */
  function IsOpen(c: Campaign, now: int): (open: bool)
    ensures open ==> c.amountCollected < c.target
    ensures open ==> now < c.deadline
  {
    c.amountCollected + Tolerance < c.target && c.deadline > now
  }

  /** The open campaigns, in their original order. */
  function FilterOpen(cs: seq<Campaign>, now: int): (open: seq<Campaign>)
    ensures |open| <= |cs|
    ensures forall c :: c in open <==> c in cs && IsOpen(c, now)
  {
    if cs == [] then []
    else
      var rest := FilterOpen(cs[1..], now);
      assert forall c :: c in cs <==> c == cs[0] || c in cs[1..];
      if IsOpen(cs[0], now) then [cs[0]] + rest else rest
  }

  /** What `getCampaigns` stores: the open campaigns of the normalised list. */
  function OpenCampaigns(raws: seq<RawCampaign>, now: int): (open: seq<Campaign>)
    ensures |open| <= |raws|
    ensures forall c | c in open :: c.id < |raws| && c == Normalize(raws[c.id], c.id) && IsOpen(c, now)
  {
    FilterOpen(NormalizeAll(raws), now)
  }

  /** `Math.floor(Date.now() / 1000)`: whole seconds of a millisecond clock. */
  function CurrentTime(nowMs: int): (t: int)
    ensures t * 1000 <= nowMs < t * 1000 + 1000
  {
    nowMs / 1000
  }

  /** `getPinataUrl`: the gateway URL of an image hash, or a placeholder when there is none. */
  function PinataUrl(hash: string): (url: string)
    ensures hash != [] ==> GatewayPrefix <= url && url[|GatewayPrefix|..] == hash
    ensures hash == [] ==> url == PlaceholderUrl
  {
    if hash != [] then GatewayPrefix + hash else PlaceholderUrl
  }

  // ---------------------------------------------------------------------------
  // Order and identity of the open list.

  ghost predicate IdsIncreasing(cs: seq<Campaign>) {
    forall i, j | 0 <= i < j < |cs| :: cs[i].id < cs[j].id
  }

  /** `xs` is `ys` with some elements deleted and the rest kept in order. */
  ghost predicate IsSubsequence<T>(xs: seq<T>, ys: seq<T>)
    decreases |ys|
  {
    if xs == [] then true
    else if ys == [] then false
    else if xs[0] == ys[0] then IsSubsequence(xs[1..], ys[1..])
    else IsSubsequence(xs, ys[1..])
  }

  /** The open list keeps the fetched order: it is a subsequence of the normalised list. */
  lemma {:induction false} FilterOpenIsSubsequence(cs: seq<Campaign>, now: int)
    ensures IsSubsequence(FilterOpen(cs, now), cs)
  {
    if cs != [] {
      var rest := FilterOpen(cs[1..], now);
      FilterOpenIsSubsequence(cs[1..], now);
      if IsOpen(cs[0], now) {
        assert ([cs[0]] + rest)[1..] == rest;
      } else if rest != [] {
        assert rest[0] in rest;
      }
    }
  }

  lemma {:induction false} FilterOpenKeepsIdOrder(cs: seq<Campaign>, now: int)
    requires IdsIncreasing(cs)
    ensures IdsIncreasing(FilterOpen(cs, now))
  {
    if cs != [] {
      var rest := FilterOpen(cs[1..], now);
      FilterOpenKeepsIdOrder(cs[1..], now);
      if IsOpen(cs[0], now) {
        forall k | 0 <= k < |rest| ensures cs[0].id < rest[k].id {
          assert rest[k] in cs[1..];
          var m :| 0 <= m < |cs[1..]| && cs[1..][m] == rest[k];
          assert cs[m + 1] == rest[k];
        }
        var open := [cs[0]] + rest;
        forall i, j | 0 <= i < j < |open| ensures open[i].id < open[j].id {
          if i > 0 {
            assert open[i] == rest[i - 1] && open[j] == rest[j - 1];
          } else {
            assert open[j] == rest[j - 1];
          }
        }
      }
    }
  }

  /** The open list's ids are strictly increasing, so no campaign appears twice. */
  lemma OpenIdsIncreasing(raws: seq<RawCampaign>, now: int)
    ensures IdsIncreasing(OpenCampaigns(raws, now))
    ensures IsSubsequence(OpenCampaigns(raws, now), NormalizeAll(raws))
  {
    FilterOpenKeepsIdOrder(NormalizeAll(raws), now);
    FilterOpenIsSubsequence(NormalizeAll(raws), now);
  }

  /**
   The fetched record at position `i` is on the open list exactly when its
   collected amount plus the tolerance is below its target and its deadline
   is still ahead.
   */
  lemma OpenCampaignsExactly(raws: seq<RawCampaign>, now: int)
    ensures forall i | 0 <= i < |raws| ::
      Normalize(raws[i], i) in OpenCampaigns(raws, now) <==>
        FromSun(raws[i].amountCollected) + Tolerance < FromSun(raws[i].target) && raws[i].deadline > now
  {
  }

  /** Filtering the open list again at the same time changes nothing. */
  lemma {:induction false} FilterOpenIdempotent(cs: seq<Campaign>, now: int)
    ensures FilterOpen(FilterOpen(cs, now), now) == FilterOpen(cs, now)
  {
    AllOpenKept(FilterOpen(cs, now), now);
  }

  lemma {:induction false} AllOpenKept(cs: seq<Campaign>, now: int)
    requires forall c | c in cs :: IsOpen(c, now)
    ensures FilterOpen(cs, now) == cs
  {
    if cs != [] {
      assert cs[0] in cs;
      assert forall c | c in cs[1..] :: c in cs;
      AllOpenKept(cs[1..], now);
      assert [cs[0]] + cs[1..] == cs;
    }
  }

  /** Different images never share a URL, and no image gets the placeholder. */
  lemma PinataUrlInjective(h1: string, h2: string)
    ensures PinataUrl(h1) == PinataUrl(h2) ==> h1 == h2
    ensures h1 != [] ==> PinataUrl(h1) != PlaceholderUrl
  {
    if h1 != [] {
      assert PinataUrl(h1)[8] == 'g';
      assert PlaceholderUrl[8] == 'v';
    }
    if h2 != [] {
      assert PinataUrl(h2)[8] == 'g';
    }
  }
}
