/**
 * Antivirus licence management: each licence's expiry bucket, the
 * statistics over all licences, the chart built from them and the list of
 * licences expiring soon. Days until expiry are taken as given; the date
 * arithmetic that produces them is not part of this model.
 */
module Antivirus {
  import opened Wrappers
  import Seqs
  import Text

  /** A licence with its customer's name and the whole days left until it expires. */
  datatype License = License(id: string, customerName: string, licenseKey: string, daysUntilExpiry: int)

  /** Days within which a licence counts as expiring soon. */
  const SoonWindow: int := 15

  datatype Bucket = Expired | ExpiringSoon | Active

  /** The bucket for a number of days left: negative is expired, up to fifteen is soon, the rest is active. */
  function Classify(days: int): (b: Bucket)
    ensures b == Expired <==> days < 0
    ensures b == ExpiringSoon <==> 0 <= days <= SoonWindow
    ensures b == Active <==> days > SoonWindow
  {
    if days < 0 then Expired
    else if days <= SoonWindow then ExpiringSoon
    else Active
  }

  /** Both ends of the window are soon; the day before today is expired, the day after the window active. */
  lemma Boundaries()
    ensures Classify(SoonWindow) == ExpiringSoon && Classify(0) == ExpiringSoon
    ensures Classify(-1) == Expired && Classify(SoonWindow + 1) == Active
  {
  }

  /** The expiry cell's text: "Expired", "Expires in N days", or the formatted expiry date. */
  function ExpiryText(days: int, formattedDate: string): (r: string)
    ensures Classify(days) == Expired ==> r == "Expired"
    ensures Classify(days) == ExpiringSoon ==> r == "Expires in " + Text.Decimal(days) + " days"
    ensures Classify(days) == Active ==> r == formattedDate
  {
    match Classify(days)
    case Expired => "Expired"
    case ExpiringSoon => "Expires in " + Text.IntString(days) + " days"
    case Active => formattedDate
  }

  predicate IsExpired(l: License) { Classify(l.daysUntilExpiry) == Expired }
  predicate IsSoon(l: License) { Classify(l.daysUntilExpiry) == ExpiringSoon }
  predicate IsActive(l: License) { Classify(l.daysUntilExpiry) == Active }

  /** The three counters of the statistics. */
  datatype Tally = Tally(active: nat, expiringSoon: nat, expired: nat)

  /** `t` counts the buckets of `ls`. */
  predicate Counts(t: Tally, ls: seq<License>) {
    t.active == Seqs.Count(ls, IsActive) && t.expiringSoon == Seqs.Count(ls, IsSoon) &&
    t.expired == Seqs.Count(ls, IsExpired)
  }

  /** One more licence: one more in the counter of its bucket. */
  function Add(t: Tally, b: Bucket): (r: Tally)
    ensures r.active + r.expiringSoon + r.expired == t.active + t.expiringSoon + t.expired + 1
  {
    match b
    case Expired => t.(expired := t.expired + 1)
    case ExpiringSoon => t.(expiringSoon := t.expiringSoon + 1)
    case Active => t.(active := t.active + 1)
  }

  lemma AddCounts(t: Tally, done: seq<License>, l: License)
    requires Counts(t, done)
    ensures Counts(Add(t, Classify(l.daysUntilExpiry)), done + [l])
  {
    Seqs.CountSnoc(done, l, IsActive);
    Seqs.CountSnoc(done, l, IsSoon);
    Seqs.CountSnoc(done, l, IsExpired);
  }

  /** Counting the licence at `i` extends the counts of the licences before it. */
  lemma CountsStep(t: Tally, licenses: seq<License>, i: nat)
    requires i < |licenses| && Counts(t, licenses[..i])
    ensures Counts(Add(t, Classify(licenses[i].daysUntilExpiry)), licenses[..i + 1])
  {
    var l := licenses[i];
    assert licenses[..i + 1] == licenses[..i] + [l];
    AddCounts(t, licenses[..i], l);
  }

  /**
   * The statistics reduce: each licence adds one to the counter of its
   * bucket, so the counters count the buckets and add up to the number of
   * licences.
   */
  method TallyLicenses(licenses: seq<License>) returns (t: Tally)
    ensures t.active == Seqs.Count(licenses, IsActive)
    ensures t.expiringSoon == Seqs.Count(licenses, IsSoon)
    ensures t.expired == Seqs.Count(licenses, IsExpired)
    ensures t.active + t.expiringSoon + t.expired == |licenses|
  {
    t := Tally(0, 0, 0);
    var i := 0;
    while i < |licenses|
      invariant 0 <= i <= |licenses|
      invariant Counts(t, licenses[..i])
      invariant t.active + t.expiringSoon + t.expired == i
    {
      CountsStep(t, licenses, i);
      t := Add(t, Classify(licenses[i].daysUntilExpiry));
      i := i + 1;
    }
    assert licenses[..i] == licenses;
  }

  /** The chart's bars in order, or none before the licences have loaded. */
  function ChartData(stats: Option<Tally>): (r: seq<(string, nat)>)
    ensures stats.None? ==> r == []
    ensures stats.Some? ==>
      r == [("Active", stats.value.active), ("Expiring Soon", stats.value.expiringSoon), ("Expired", stats.value.expired)]
  {
    match stats
    case None => []
    case Some(t) => [("Active", t.active), ("Expiring Soon", t.expiringSoon), ("Expired", t.expired)]
  }

  /** The "Expiring Licenses" card: licences with zero to fifteen days left, in the loaded order. */
  function ExpiringList(licenses: seq<License>): (r: seq<License>)
    ensures forall i :: 0 <= i < |r| ==> r[i] in licenses && 0 <= r[i].daysUntilExpiry <= SoonWindow
    ensures forall i :: 0 <= i < |licenses| && 0 <= licenses[i].daysUntilExpiry <= SoonWindow ==> licenses[i] in r
  {
    Seqs.Filter(licenses, IsSoon)
  }

  /** The card lists exactly as many licences as the statistics count as expiring soon. */
  lemma ExpiringListMatchesTally(licenses: seq<License>)
    ensures |ExpiringList(licenses)| == Seqs.Count(licenses, IsSoon)
  {
  }

  /** The badge next to an expiring licence. */
  function DaysLeftBadge(l: License): (r: string)
    requires IsSoon(l)
    ensures r == Text.Decimal(l.daysUntilExpiry) + " days left"
  {
    Text.IntString(l.daysUntilExpiry) + " days left"
  }
}
