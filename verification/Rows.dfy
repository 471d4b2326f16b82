/** The rows that travel through the pipeline (producer/models.py).

    Ids are integers: every algorithm here only compares ids for order and
    equality, so an order-preserving renaming of the finitely many id strings of an
    input changes nothing. Times are integer milliseconds, money is integer cents. */
module Rows {
  datatype Option<+T> = None | Some(value: T)

  /** A call that may raise Python's `ValueError`. The message is not modelled. */
  datatype Result<+T> = Ok(value: T) | ValueError

  type Id = int
  type Time = int
  type Positive = n: nat | 1 <= n witness 1

  const HOUR_MS := 3_600_000
  const DAY_MS := 86_400_000
  const HOT_WINDOW: Time := 7 * DAY_MS
  const LONG_WINDOW: Time := 90 * DAY_MS
  const RECONCILE_DELTA_MS: Time := 1000

  /** The UTC day, and the UTC hour, that a time falls in. */
  function DayOf(t: Time): int { t / DAY_MS }
  function HourOf(t: Time): int { t / HOUR_MS }

  /** In milliseconds since the epoch, also before it. */
  lemma CalendarIs(t: Time, k: int)
    ensures DayOf(t) == k <==> k * 86_400_000 <= t < (k + 1) * 86_400_000
    ensures HourOf(t) == k <==> k * 3_600_000 <= t < (k + 1) * 3_600_000
  {
  }

  datatype Exposure = Exposure(exposureId: Id, eventTime: Time, ingestTime: Time, campaignId: Id,
                               householdId: Id, ip: Id, appId: Id, programGenre: Id, spend: nat)

  datatype ConversionType = SiteVisit | Purchase

  datatype Conversion = Conversion(conversionId: Id, eventTime: Time, ingestTime: Time, deviceId: Id,
                                   ip: Id, conversionType: ConversionType, revenue: nat, orderId: Option<Id>)

  datatype Resolution = ByDevice | ByIp

  /** A conversion mapped to a household; a shared IP gives one such row per owner. */
  datatype Resolved = Resolved(conv: Conversion, householdId: Id, resolution: Resolution,
                               ambiguous: bool, candidateCount: Positive)
  {
    function Cid(): Id { conv.conversionId }
    function EventTime(): Time { conv.eventTime }
    function IngestTime(): Time { conv.ingestTime }
  }

  datatype Path = Hot | Reconciled
  datatype Reason = AmbiguousIp | StateMiss

  datatype Attributed = Attributed(res: Resolved, exposureId: Option<Id>, assists: seq<Id>, attributed: bool,
                                   path: Path, processedAt: Time, reason: Option<Reason>,
                                   candidateHouseholds: seq<Id>)
  {
    function Cid(): Id { res.Cid() }
    function Day(): int { DayOf(res.EventTime()) }
  }

  /** Strictly ascending, hence sorted and without repetition. */
  predicate Ascending(s: seq<int>) {
    forall i, j :: 0 <= i < j < |s| ==> s[i] < s[j]
  }

  /** The validator that every attributed row must pass when it is built: no candidate
      set on a certain row; on an ambiguous row exactly `candidateCount` sorted distinct
      households, the row's own among them. */
  predicate CandidateSetMatchesCount(a: Attributed) {
    if a.res.candidateCount == 1 then
      a.candidateHouseholds == []
    else
      && |a.candidateHouseholds| == a.res.candidateCount
      && Ascending(a.candidateHouseholds)
      && a.res.householdId in a.candidateHouseholds
  }
}
