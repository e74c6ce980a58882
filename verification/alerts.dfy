/**
 * The Danish expiry alerts the daily job and the test sender push: three
 * buckets by days left, and one message per bucket that names the item
 * when the bucket holds one and gives the count otherwise.
 */
module Alerts {
  import opened Wrappers
  import opened Text

  /** The buckets an item falls in by whole days left: gone, due tomorrow, due within the week. */
  datatype Bucket = ExpiredBucket | TomorrowBucket | SoonBucket

  /** The order the alerts are sent in. */
  function Rank(b: Bucket): (n: nat)
    ensures n < 3
  {
    match b
    case ExpiredBucket => 0
    case TomorrowBucket => 1
    case SoonBucket => 2
  }

  /** The bucket of an item `days` whole days from expiry, if it is due within the week. */
  function BucketFor(days: int): (r: Option<Bucket>)
    ensures r == Some(ExpiredBucket) <==> days <= 0
    ensures r == Some(TomorrowBucket) <==> days == 1
    ensures r == Some(SoonBucket) <==> 2 <= days <= 7
    ensures r.None? <==> days > 7
  {
    if days <= 0 then Some(ExpiredBucket)
    else if days == 1 then Some(TomorrowBucket)
    else if days <= 7 then Some(SoonBucket)
    else None
  }

  const AlertTitle: string := "Udløbsadvarsel"
  const ExpiredUrl: string := "/inventory?expiration=expired"
  const SoonUrl: string := "/inventory?expiration=soon"

  /** What the alert says about the items of a bucket. */
  function Phrase(b: Bucket): string {
    match b
    case ExpiredBucket => " er udløbet"
    case TomorrowBucket => " udløber i morgen"
    case SoonBucket => " udløber snart"
  }

  /** The word for "items" after a count. */
  const ItemsWord: string := " varer"

  /**
   * The alert body for the item names of one bucket: the item's name when
   * there is one, otherwise the number of items, followed by the bucket's
   * phrase.
   */
  function AlertBody(b: Bucket, names: seq<string>): (r: string)
    ensures |names| == 1 ==> r == names[0] + Phrase(b)
    ensures |names| != 1 ==> r == NatToDecimal(|names|) + ItemsWord + Phrase(b)
  {
    if |names| == 1 then names[0] + Phrase(b)
    else NatToDecimal(|names|) + ItemsWord + Phrase(b)
  }

  /** A body for several items opens with the count in decimal, which reads back as the number of items. */
  lemma AlertBodyCount(b: Bucket, names: seq<string>)
    requires |names| != 1
    ensures var r := AlertBody(b, names); var w := |NatToDecimal(|names|)|;
      w < |r| && (forall k :: 0 <= k < w ==> IsDigit(r[k])) && !IsDigit(r[w])
      && DecimalValue(r[..w]) == |names|
  {
    var rest := ItemsWord + Phrase(b);
    assert rest[0] == ' ';
    assert AlertBody(b, names) == NatToDecimal(|names|) + rest;
    DecimalPrefixReadsBack(|names|, rest);
  }
}
