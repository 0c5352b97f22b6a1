/** Affiliate commissions: the tier table and its two lookups, which reverse
    the shared table in place, commission and refund events with the
    affiliate totals they move, and the monthly payouts. */
module Commission {
  import opened Wrappers

  // ------------------------------------------------------------ tiers

  datatype CommissionTier = CommissionTier(name: string, minRevenue: real, maxRevenue: Option<real>, rate: real)

  const SILVER: CommissionTier := CommissionTier("silver", 0.0, Some(999.0), 15.0)
  const GOLD: CommissionTier := CommissionTier("gold", 1000.0, Some(4999.0), 20.0)
  const PLATINUM: CommissionTier := CommissionTier("platinum", 5000.0, None, 25.0)

  /** `COMMISSION_TIERS` as declared. */
  const COMMISSION_TIERS: seq<CommissionTier> := [SILVER, GOLD, PLATINUM]

  /** The test of the lookup loops: at least the minimum and, when the tier
      has one, at most the maximum. */
  predicate InTier(t: CommissionTier, revenue: real)
  {
    revenue >= t.minRevenue && (t.maxRevenue.None? || revenue <= t.maxRevenue.value)
  }

  /** The first tier from position `i` on that holds the revenue. */
  function FirstMatchFrom(ts: seq<CommissionTier>, revenue: real, i: nat): (r: Option<CommissionTier>)
    requires i <= |ts|
    ensures r.Some? ==> exists j :: i <= j < |ts| && ts[j] == r.value && InTier(ts[j], revenue) &&
                                    forall k :: i <= k < j ==> !InTier(ts[k], revenue)
    ensures r.None? <==> forall j :: i <= j < |ts| ==> !InTier(ts[j], revenue)
    decreases |ts| - i
  {
    if i == |ts| then None
    else if InTier(ts[i], revenue) then Some(ts[i])
    else FirstMatchFrom(ts, revenue, i + 1)
  }

  /** The tier a lookup returns when the table reads `ts` after its
      reversal: the first tier that holds the revenue, else the entry now in
      front. */
  function TierFor(ts: seq<CommissionTier>, revenue: real): (t: CommissionTier)
    requires |ts| > 0
    ensures t in ts
    ensures (exists j :: 0 <= j < |ts| && InTier(ts[j], revenue)) ==> InTier(t, revenue)
    ensures (forall j :: 0 <= j < |ts| ==> !InTier(ts[j], revenue)) ==> t == ts[0]
  {
    var m := FirstMatchFrom(ts, revenue, 0);
    if m.Some? then m.value else ts[0]
  }

  function Reversed<T>(s: seq<T>): (r: seq<T>)
    ensures |r| == |s|
    ensures forall i :: 0 <= i < |s| ==> r[i] == s[|s| - 1 - i]
  {
    if |s| == 0 then [] else Reversed(s[1..]) + [s[0]]
  }

  /** Reversing twice restores the order. */
  lemma ReversedTwice<T>(s: seq<T>)
    ensures Reversed(Reversed(s)) == s
  {
    assert forall i :: 0 <= i < |s| ==> Reversed(Reversed(s))[i] == s[i];
  }

  /** A sequence that reads another backwards is its reversal. */
  lemma ReversedPointwise<T>(r: seq<T>, s: seq<T>)
    requires |r| == |s| && forall k :: 0 <= k < |s| ==> r[k] == s[|s| - 1 - k]
    ensures r == Reversed(s)
  {
  }

  /** The module-level `COMMISSION_TIERS` array, which `calculateCommissionRate`
      and `getTierName` each reverse in place before they scan it. */
  class TierTable {
    var tiers: array<CommissionTier>

    /** The table is in its declared order or reversed. */
    ghost predicate Valid()
      reads this, tiers
    {
      tiers[..] == COMMISSION_TIERS || tiers[..] == Reversed(COMMISSION_TIERS)
    }

    constructor()
      ensures tiers[..] == COMMISSION_TIERS && fresh(tiers)
      ensures Valid()
    {
      tiers := new CommissionTier[] [SILVER, GOLD, PLATINUM];
    }

    /** `Array.prototype.reverse`: the two ends swapped pairwise towards the
        middle. */
    method Reverse()
      modifies tiers
      ensures tiers[..] == Reversed(old(tiers[..]))
    {
      ghost var before := tiers[..];
      var n := tiers.Length;
      var lo := 0;
      while lo + 1 < n - lo
        invariant 0 <= lo <= n - lo && |before| == n == tiers.Length
        invariant forall k :: 0 <= k < lo ==> tiers[k] == before[n - 1 - k]
        invariant forall k :: n - lo <= k < n ==> tiers[k] == before[n - 1 - k]
        invariant forall k :: lo <= k < n - lo ==> tiers[k] == before[k]
      {
        tiers[lo], tiers[n - 1 - lo] := tiers[n - 1 - lo], tiers[lo];
        lo := lo + 1;
      }
      ReversedPointwise(tiers[..], before);
    }

    /** The scan of the two lookups over the table as it stands: the first
        tier that holds the revenue, else the entry in front. */
    method Find(revenue: real) returns (t: CommissionTier)
      requires tiers.Length > 0
      ensures t == TierFor(tiers[..], revenue)
    {
      var i := 0;
      while i < tiers.Length
        invariant 0 <= i <= tiers.Length
        invariant FirstMatchFrom(tiers[..], revenue, i) == FirstMatchFrom(tiers[..], revenue, 0)
      {
        var tier := tiers[i];
        if revenue >= tier.minRevenue && (tier.maxRevenue.None? || revenue <= tier.maxRevenue.value) {
          return tier;
        }
        i := i + 1;
      }
      return tiers[0];
    }

    /** The shared body of the two lookups: reverse the table, then scan
        it. */
    method ReverseAndFind(revenue: real) returns (t: CommissionTier)
      requires tiers.Length > 0
      modifies tiers
      ensures tiers[..] == Reversed(old(tiers[..]))
      ensures t == TierFor(tiers[..], revenue)
    {
      Reverse();
      t := Find(revenue);
    }

    /** `calculateCommissionRate`. */
    method CalculateCommissionRate(revenue: real) returns (rate: real)
      requires tiers.Length > 0
      modifies tiers
      ensures tiers[..] == Reversed(old(tiers[..]))
      ensures rate == TierFor(tiers[..], revenue).rate
    {
      var t := ReverseAndFind(revenue);
      rate := t.rate;
    }

    /** `getTierName`. */
    method GetTierName(revenue: real) returns (name: string)
      requires tiers.Length > 0
      modifies tiers
      ensures tiers[..] == Reversed(old(tiers[..]))
      ensures name == TierFor(tiers[..], revenue).name
    {
      var t := ReverseAndFind(revenue);
      name := t.name;
    }

    /** The tier step of `updateAffiliateTier`: the name and then the rate
        are looked up, and the table ends as it began. */
    method NewTierAndRate(revenue: real) returns (name: string, rate: real)
      requires tiers.Length > 0
      modifies tiers
      ensures tiers[..] == old(tiers[..])
      ensures (name, rate) == AsWrittenTierAndRate(old(tiers[..]), revenue)
      ensures Valid() ==> (name, rate) == AsWrittenTierAndRate(tiers[..], revenue)
    {
      name := GetTierName(revenue);
      rate := CalculateCommissionRate(revenue);
      ReversedTwice(old(tiers[..]));
    }
  }

  /** `getTierName` followed by `calculateCommissionRate` on a table reading
      `ts`: the name comes from the reversed table, the rate from the table
      the second reversal restores. */
  function AsWrittenTierAndRate(ts: seq<CommissionTier>, revenue: real): (string, real)
    requires |ts| > 0
  {
    (TierFor(Reversed(ts), revenue).name, TierFor(ts, revenue).rate)
  }

  /** The revenues no tier holds: below 0, or strictly between 999 and
      1000 or between 4999 and 5000. */
  predicate Uncovered(revenue: real)
  {
    revenue < 0.0 || (999.0 < revenue < 1000.0) || (4999.0 < revenue < 5000.0)
  }

  lemma ReversedTiers()
    ensures Reversed(COMMISSION_TIERS) == [PLATINUM, GOLD, SILVER]
  {
  }

  /** A revenue is held by some tier exactly when it is not uncovered. */
  lemma CoveredExactly(revenue: real)
    ensures (exists j :: 0 <= j < 3 && InTier(COMMISSION_TIERS[j], revenue)) <==> !Uncovered(revenue)
  {
    if !Uncovered(revenue) {
      if revenue <= 999.0 {
        assert InTier(COMMISSION_TIERS[0], revenue);
      } else if revenue <= 4999.0 {
        assert InTier(COMMISSION_TIERS[1], revenue);
      } else {
        assert InTier(COMMISSION_TIERS[2], revenue);
      }
    }
  }

  /** A revenue inside a tier's range finds that tier whichever way round
      the table is, because the ranges are disjoint. */
  lemma InRangeAnyOrientation(revenue: real, i: nat)
    requires i < 3 && InTier(COMMISSION_TIERS[i], revenue)
    ensures TierFor(COMMISSION_TIERS, revenue) == COMMISSION_TIERS[i]
    ensures TierFor(Reversed(COMMISSION_TIERS), revenue) == COMMISSION_TIERS[i]
  {
    ReversedTiers();
    forall j | 0 <= j < 3 && j != i
      ensures !InTier(COMMISSION_TIERS[j], revenue)
    {
    }
    var rev := Reversed(COMMISSION_TIERS);
    assert rev[2 - i] == COMMISSION_TIERS[i];
    var t := TierFor(rev, revenue);
    assert InTier(t, revenue);
    assert t == rev[0] || t == rev[1] || t == rev[2];
  }

  /** An uncovered revenue falls back to the entry in front after the
      reversal: silver when the table was reversed before the call, platinum
      when it was in declared order. */
  lemma FallbackByOrientation(revenue: real)
    requires Uncovered(revenue)
    ensures TierFor(COMMISSION_TIERS, revenue) == SILVER
    ensures TierFor(Reversed(COMMISSION_TIERS), revenue) == PLATINUM
  {
    CoveredExactly(revenue);
    ReversedTiers();
  }

  /** As written, an uncovered revenue gets the name of one end of the table
      and the rate of the other: "platinum" at 15 from the declared order,
      "silver" at 25 from the reversed one. */
  lemma AsWrittenMismatch(revenue: real)
    requires Uncovered(revenue)
    ensures AsWrittenTierAndRate(COMMISSION_TIERS, revenue) == ("platinum", 15.0)
    ensures AsWrittenTierAndRate(Reversed(COMMISSION_TIERS), revenue) == ("silver", 25.0)
  {
    FallbackByOrientation(revenue);
    ReversedTwice(COMMISSION_TIERS);
  }

  /** Covered revenues get the name and the rate of their own tier either
      way round. */
  lemma AsWrittenInRange(revenue: real, i: nat)
    requires i < 3 && InTier(COMMISSION_TIERS[i], revenue)
    ensures AsWrittenTierAndRate(COMMISSION_TIERS, revenue) == (COMMISSION_TIERS[i].name, COMMISSION_TIERS[i].rate)
    ensures AsWrittenTierAndRate(Reversed(COMMISSION_TIERS), revenue) == (COMMISSION_TIERS[i].name, COMMISSION_TIERS[i].rate)
  {
    InRangeAnyOrientation(revenue, i);
    ReversedTwice(COMMISSION_TIERS);
  }

  /** The tier the "Default to silver" comments intend: the declared table,
      left unmutated, with silver for uncovered revenues. */
  function IntendedTierAndRate(revenue: real): (string, real)
  {
    var t := TierFor(COMMISSION_TIERS, revenue);
    (t.name, t.rate)
  }

  /** The intended lookup takes name and rate from one tier, the one that
      holds the revenue, and silver when none does; it agrees with the
      written lookups on every covered revenue. */
  lemma IntendedTierConsistent(revenue: real)
    ensures exists j :: 0 <= j < 3 && IntendedTierAndRate(revenue) == (COMMISSION_TIERS[j].name, COMMISSION_TIERS[j].rate)
    ensures Uncovered(revenue) ==> IntendedTierAndRate(revenue) == ("silver", 15.0)
    ensures forall i :: 0 <= i < 3 && InTier(COMMISSION_TIERS[i], revenue) ==>
                IntendedTierAndRate(revenue) == (COMMISSION_TIERS[i].name, COMMISSION_TIERS[i].rate)
    ensures !Uncovered(revenue) ==>
      IntendedTierAndRate(revenue) == AsWrittenTierAndRate(COMMISSION_TIERS, revenue) &&
      IntendedTierAndRate(revenue) == AsWrittenTierAndRate(Reversed(COMMISSION_TIERS), revenue)
  {
    CoveredExactly(revenue);
    if Uncovered(revenue) {
      FallbackByOrientation(revenue);
      assert IntendedTierAndRate(revenue) == (COMMISSION_TIERS[0].name, COMMISSION_TIERS[0].rate);
    } else {
      var i :| 0 <= i < 3 && InTier(COMMISSION_TIERS[i], revenue);
      AsWrittenInRange(revenue, i);
      forall j | 0 <= j < 3 && InTier(COMMISSION_TIERS[j], revenue)
        ensures IntendedTierAndRate(revenue) == (COMMISSION_TIERS[j].name, COMMISSION_TIERS[j].rate)
      {
        InRangeAnyOrientation(revenue, j);
      }
    }
  }

  /** The corrected pair is the written lookups' pair exactly when some
      tier holds the revenue. */
  lemma IntendedAgainstAsWritten(revenue: real)
    ensures (IntendedTierAndRate(revenue) == AsWrittenTierAndRate(COMMISSION_TIERS, revenue)) <==> !Uncovered(revenue)
    ensures Uncovered(revenue) ==>
      IntendedTierAndRate(revenue) == ("silver", 15.0) && AsWrittenTierAndRate(COMMISSION_TIERS, revenue) == ("platinum", 15.0)
  {
    IntendedTierConsistent(revenue);
    if Uncovered(revenue) {
      AsWrittenMismatch(revenue);
    }
  }

  // ------------------------------------------------------------ store

  datatype EventStatus = Confirmed | Refunded

  /** A `commissionEvent` row; its id is its position in the table. */
  datatype CommissionEvent = CommissionEvent(
    affiliateId: string,
    customerId: string,
    stripeChargeId: string,
    stripeEventId: string,
    chargeAmount: real,
    commissionRate: real,
    commissionAmount: real,
    eventType: string,
    monthYear: string,
    status: EventStatus,
    createdAt: int)

  /** The `affiliate` columns the service reads and writes. */
  datatype Affiliate = Affiliate(affiliateTier: string, commissionRate: real, totalRevenue: real, totalCommissions: real)

  datatype Payout = Payout(affiliateId: string, payoutMonth: string, totalCommission: real, status: string)

  /** The three tables; payouts are keyed by (affiliate, month), their
      unique pair. */
  datatype Db = Db(
    affiliates: map<string, Affiliate>,
    events: seq<CommissionEvent>,
    payouts: map<(string, string), Payout>)

  /** The reasons an operation throws: the service's two own errors, and
      the database's unique-key and missing-row failures. */
  datatype Failure = AffiliateNotFound | OriginalEventNotFound | UniqueViolation | RecordNotFound

  /** The argument of `processCommissionEvent`. */
  datatype ChargeData = ChargeData(
    affiliateId: string,
    customerId: string,
    stripeChargeId: string,
    stripeEventId: string,
    chargeAmount: real,
    eventType: string,
    monthYear: string)

  datatype TierUpdate = TierUpdate(tier: string, rate: real, monthlyRevenue: real)

  /** What the database guarantees: every event names an existing affiliate,
      charge ids are unique, and a payout is stored under its own key. */
  predicate Consistent(db: Db)
  {
    (forall i :: 0 <= i < |db.events| ==> db.events[i].affiliateId in db.affiliates) &&
    (forall i, j :: 0 <= i < j < |db.events| ==> db.events[i].stripeChargeId != db.events[j].stripeChargeId) &&
    (forall k :: k in db.payouts ==> db.payouts[k].affiliateId == k.0 && db.payouts[k].payoutMonth == k.1)
  }

  /** `findUnique` by charge id: the position of the event with that id. */
  function FindCharge(events: seq<CommissionEvent>, chargeId: string): (r: Option<nat>)
    ensures r.Some? ==> r.value < |events| && events[r.value].stripeChargeId == chargeId &&
                        forall i :: 0 <= i < r.value ==> events[i].stripeChargeId != chargeId
    ensures r.None? <==> forall i :: 0 <= i < |events| ==> events[i].stripeChargeId != chargeId
  {
    if |events| == 0 then None
    else
      var prefix := FindCharge(events[..|events| - 1], chargeId);
      if prefix.Some? then prefix
      else if events[|events| - 1].stripeChargeId == chargeId then Some(|events| - 1)
      else None
  }

  /** The share of one event in the 30-day revenue of an affiliate: its
      charge when it is the affiliate's, confirmed and recent enough. */
  function RecentCharge(e: CommissionEvent, affiliateId: string, since: int): real
  {
    if e.affiliateId == affiliateId && e.createdAt >= since && e.status == Confirmed then e.chargeAmount else 0.0
  }

  /** The `_sum.chargeAmount` aggregate of `updateAffiliateTier`, 0 for no
      rows. */
  function RevenueSince(events: seq<CommissionEvent>, affiliateId: string, since: int): real
  {
    if |events| == 0 then 0.0
    else RevenueSince(events[..|events| - 1], affiliateId, since) + RecentCharge(events[|events| - 1], affiliateId, since)
  }

  /** `updateAffiliateTier`, with `since` the instant 30 days before the
      call. Name and rate come from one tier, the corrected lookup
      `IntendedTierAndRate`; what the shared table makes of them as written
      is `TierTable.NewTierAndRate`, and `TierUpdateAgainstAsWritten` says
      where the two differ. */
  function UpdateAffiliateTier(db: Db, affiliateId: string, since: int): (r: Result<(Db, TierUpdate), Failure>)
  {
    if affiliateId !in db.affiliates then Err(RecordNotFound)
    else
      var revenue := RevenueSince(db.events, affiliateId, since);
      var nameRate := IntendedTierAndRate(revenue);
      var a := db.affiliates[affiliateId];
      var updated := a.(affiliateTier := nameRate.0, commissionRate := nameRate.1);
      Ok((db.(affiliates := db.affiliates[affiliateId := updated]), TierUpdate(nameRate.0, nameRate.1, revenue)))
  }

  /** The tier update writes the affiliate's row alone, with the name and
      rate of the corrected lookup. They are the pair the written lookups
      give exactly when some tier holds the 30-day revenue; for an uncovered
      revenue the update stores "silver" at 15 where the written code stores
      "platinum" at 15. */
  lemma TierUpdateAgainstAsWritten(db: Db, affiliateId: string, since: int)
    requires affiliateId in db.affiliates
    ensures var r := UpdateAffiliateTier(db, affiliateId, since);
      var revenue := RevenueSince(db.events, affiliateId, since);
      var b := r.value.0.affiliates[affiliateId];
      r.Ok? && r.value.1.monthlyRevenue == revenue &&
      (b.affiliateTier, b.commissionRate) == (r.value.1.tier, r.value.1.rate) == IntendedTierAndRate(revenue) &&
      b == db.affiliates[affiliateId].(affiliateTier := b.affiliateTier, commissionRate := b.commissionRate) &&
      r.value.0 == db.(affiliates := db.affiliates[affiliateId := b]) &&
      (((b.affiliateTier, b.commissionRate) == AsWrittenTierAndRate(COMMISSION_TIERS, revenue)) <==> !Uncovered(revenue)) &&
      (Uncovered(revenue) ==>
        (b.affiliateTier, b.commissionRate) == ("silver", 15.0) &&
        AsWrittenTierAndRate(COMMISSION_TIERS, revenue) == ("platinum", 15.0))
  {
    IntendedAgainstAsWritten(RevenueSince(db.events, affiliateId, since));
  }

  /** `processCommissionEvent` at instant `now`: a confirmed event at the
      affiliate's current rate, the totals incremented, then the tier
      update. */
  function ProcessCommissionEvent(db: Db, data: ChargeData, since: int, now: int): (r: Result<(Db, CommissionEvent), Failure>)
  {
    if data.affiliateId !in db.affiliates then Err(AffiliateNotFound)
    else if FindCharge(db.events, data.stripeChargeId).Some? then Err(UniqueViolation)
    else
      var a := db.affiliates[data.affiliateId];
      var amount := data.chargeAmount * a.commissionRate / 100.0;
      var event := CommissionEvent(data.affiliateId, data.customerId, data.stripeChargeId, data.stripeEventId,
                                   data.chargeAmount, a.commissionRate, amount, data.eventType, data.monthYear,
                                   Confirmed, now);
      var totals := a.(totalRevenue := a.totalRevenue + data.chargeAmount,
                       totalCommissions := a.totalCommissions + amount);
      var inserted := db.(events := db.events + [event], affiliates := db.affiliates[data.affiliateId := totals]);
      var update := UpdateAffiliateTier(inserted, data.affiliateId, since);
      if update.Ok? then Ok((update.value.0, event)) else Err(update.error)
  }

  /** The charge id of the event a refund creates. */
  function RefundChargeId(chargeId: string): string
  {
    chargeId + "_refund"
  }

  /** `processRefund` at instant `now`: a confirmed event negating the
      original, the original marked refunded, the totals decremented. */
  function ProcessRefund(db: Db, chargeId: string, stripeEventId: string, now: int): (r: Result<(Db, CommissionEvent), Failure>)
    requires Consistent(db)
  {
    var found := FindCharge(db.events, chargeId);
    if found.None? then Err(OriginalEventNotFound)
    else if FindCharge(db.events, RefundChargeId(chargeId)).Some? then Err(UniqueViolation)
    else
      var k := found.value;
      var original := db.events[k];
      var refund := CommissionEvent(original.affiliateId, original.customerId, RefundChargeId(chargeId), stripeEventId,
                                    -original.chargeAmount, original.commissionRate, -original.commissionAmount,
                                    "charge.refunded", original.monthYear, Confirmed, now);
      var a := db.affiliates[original.affiliateId];
      var totals := a.(totalRevenue := a.totalRevenue - original.chargeAmount,
                       totalCommissions := a.totalCommissions - original.commissionAmount);
      Ok((db.(events := db.events[k := original.(status := Refunded)] + [refund],
              affiliates := db.affiliates[original.affiliateId := totals]), refund))
  }

  // ------------------------------------------------------ event lemmas

  /** A commission event fails exactly for an unknown affiliate, reported as
      "Affiliate not found", or for a charge already recorded. */
  lemma CommissionEventOutcome(db: Db, data: ChargeData, since: int, now: int)
    ensures var r := ProcessCommissionEvent(db, data, since, now);
      (data.affiliateId !in db.affiliates ==> r == Err(AffiliateNotFound)) &&
      (r.Err? <==> data.affiliateId !in db.affiliates || FindCharge(db.events, data.stripeChargeId).Some?)
  {
  }

  /** A successful commission event appends a confirmed event whose
      commission is charge × rate / 100 at the rate held before the call,
      adds charge and commission to the totals, and sets tier and rate from
      the 30-day revenue, which now includes the new charge: the pair of the
      corrected lookup, which is the written lookups' pair exactly when some
      tier holds that revenue. */
  lemma CommissionEventEffect(db: Db, data: ChargeData, since: int, now: int)
    requires ProcessCommissionEvent(db, data, since, now).Ok?
    ensures var r := ProcessCommissionEvent(db, data, since, now);
      var after := r.value.0;
      var e := r.value.1;
      var a := db.affiliates[data.affiliateId];
      var b := after.affiliates[data.affiliateId];
      var revenue := RevenueSince(after.events, data.affiliateId, since);
      after.events == db.events + [e] &&
      e.status == Confirmed && e.affiliateId == data.affiliateId &&
      e.stripeChargeId == data.stripeChargeId && e.chargeAmount == data.chargeAmount &&
      e.commissionRate == a.commissionRate &&
      e.commissionAmount == data.chargeAmount * a.commissionRate / 100.0 &&
      b.totalRevenue == a.totalRevenue + data.chargeAmount &&
      b.totalCommissions == a.totalCommissions + e.commissionAmount &&
      (b.affiliateTier, b.commissionRate) == IntendedTierAndRate(revenue) &&
      (((b.affiliateTier, b.commissionRate) == AsWrittenTierAndRate(COMMISSION_TIERS, revenue)) <==> !Uncovered(revenue)) &&
      (now >= since ==> revenue == RevenueSince(db.events, data.affiliateId, since) + data.chargeAmount)
  {
    var e := ProcessCommissionEvent(db, data, since, now).value.1;
    assert (db.events + [e])[..|db.events|] == db.events;
    var after := ProcessCommissionEvent(db, data, since, now).value.0;
    IntendedAgainstAsWritten(RevenueSince(after.events, data.affiliateId, since));
  }

  /** A commission event touches no other affiliate and no payout, and
      keeps the database consistent. */
  lemma CommissionEventFrame(db: Db, data: ChargeData, since: int, now: int)
    requires ProcessCommissionEvent(db, data, since, now).Ok?
    ensures var after := ProcessCommissionEvent(db, data, since, now).value.0;
      after.affiliates.Keys == db.affiliates.Keys &&
      (forall id :: id in db.affiliates && id != data.affiliateId ==> after.affiliates[id] == db.affiliates[id]) &&
      after.payouts == db.payouts &&
      (Consistent(db) ==> Consistent(after))
  {
    var r := ProcessCommissionEvent(db, data, since, now);
    var after := r.value.0;
    var e := r.value.1;
    assert after.events == db.events + [e];
    if Consistent(db) {
      forall i, j | 0 <= i < j < |after.events|
        ensures after.events[i].stripeChargeId != after.events[j].stripeChargeId
      {
        if j == |db.events| {
          assert after.events[i] == db.events[i];
        }
      }
    }
  }

  /** A refund fails exactly when the charge is unknown or already has a
      refund event; otherwise it appends a confirmed "charge.refunded" event
      with the original's rate and negated charge and commission, marks the
      original refunded, subtracts both amounts from the affiliate's totals,
      leaves the tier, every other row and the payouts alone, and keeps the
      database consistent. */
  lemma RefundEffect(db: Db, chargeId: string, stripeEventId: string, now: int)
    requires Consistent(db)
    ensures var r := ProcessRefund(db, chargeId, stripeEventId, now);
      (FindCharge(db.events, chargeId).None? ==> r == Err(OriginalEventNotFound)) &&
      (r.Err? <==> FindCharge(db.events, chargeId).None? || FindCharge(db.events, RefundChargeId(chargeId)).Some?)
    ensures var r := ProcessRefund(db, chargeId, stripeEventId, now);
      r.Ok? ==>
        var k := FindCharge(db.events, chargeId).value;
        var original := db.events[k];
        var after := r.value.0;
        var e := r.value.1;
        var a := db.affiliates[original.affiliateId];
        var b := after.affiliates[original.affiliateId];
        |after.events| == |db.events| + 1 && after.events[|db.events|] == e &&
        after.events[k] == original.(status := Refunded) &&
        (forall i :: 0 <= i < |db.events| && i != k ==> after.events[i] == db.events[i]) &&
        e.affiliateId == original.affiliateId && e.stripeChargeId == chargeId + "_refund" &&
        e.chargeAmount == -original.chargeAmount && e.commissionAmount == -original.commissionAmount &&
        e.commissionRate == original.commissionRate && e.eventType == "charge.refunded" &&
        e.monthYear == original.monthYear && e.status == Confirmed &&
        b == a.(totalRevenue := a.totalRevenue - original.chargeAmount,
                totalCommissions := a.totalCommissions - original.commissionAmount) &&
        after.affiliates.Keys == db.affiliates.Keys &&
        (forall id :: id in db.affiliates && id != original.affiliateId ==> after.affiliates[id] == db.affiliates[id]) &&
        after.payouts == db.payouts &&
        Consistent(after)
  {
    var r := ProcessRefund(db, chargeId, stripeEventId, now);
    if r.Ok? {
      var k := FindCharge(db.events, chargeId).value;
      var after := r.value.0;
      var updated := db.events[k := db.events[k].(status := Refunded)];
      assert after.events == updated + [r.value.1];
      RefundKeepsConsistent(db, k, r.value.1, after);
    }
  }

  /** Marking event `k` refunded and appending a refund event with a fresh
      charge id for the same affiliate keeps the database consistent. */
  lemma RefundKeepsConsistent(db: Db, k: nat, e: CommissionEvent, after: Db)
    requires Consistent(db) && k < |db.events|
    requires e.affiliateId == db.events[k].affiliateId
    requires forall i :: 0 <= i < |db.events| ==> db.events[i].stripeChargeId != e.stripeChargeId
    requires after.events == db.events[k := db.events[k].(status := Refunded)] + [e]
    requires after.affiliates.Keys == db.affiliates.Keys && after.payouts == db.payouts
    ensures Consistent(after)
  {
    forall i, j | 0 <= i < j < |after.events|
      ensures after.events[i].stripeChargeId != after.events[j].stripeChargeId
    {
      if j == |db.events| {
        assert after.events[i].stripeChargeId == db.events[i].stripeChargeId;
      } else {
        assert after.events[i].stripeChargeId == db.events[i].stripeChargeId;
        assert after.events[j].stripeChargeId == db.events[j].stripeChargeId;
      }
    }
    forall i | 0 <= i < |after.events|
      ensures after.events[i].affiliateId in after.affiliates
    {
      if i < |db.events| {
        assert after.events[i].affiliateId == db.events[i].affiliateId;
      }
    }
  }

  /** Refunding a charge a second time fails on the refund event's charge
      id, before anything is written. */
  lemma RefundTwiceFails(db: Db, chargeId: string, stripeEventId: string, now: int, laterEventId: string, later: int)
    requires Consistent(db) && ProcessRefund(db, chargeId, stripeEventId, now).Ok?
    ensures var after := ProcessRefund(db, chargeId, stripeEventId, now).value.0;
      Consistent(after) && ProcessRefund(after, chargeId, laterEventId, later) == Err(UniqueViolation)
  {
    RefundEffect(db, chargeId, stripeEventId, now);
    var after := ProcessRefund(db, chargeId, stripeEventId, now).value.0;
    var k := FindCharge(db.events, chargeId).value;
    assert after.events[k].stripeChargeId == chargeId;
    assert after.events[|db.events|].stripeChargeId == RefundChargeId(chargeId);
  }

  /** A commission event followed by the refund of its charge leaves the
      affiliate's total revenue and total commissions where they were. */
  lemma CommissionThenRefundKeepsTotals(db: Db, data: ChargeData, since: int, now: int,
                                        refundEventId: string, later: int)
    requires Consistent(db)
    requires ProcessCommissionEvent(db, data, since, now).Ok?
    requires FindCharge(db.events, RefundChargeId(data.stripeChargeId)).None?
    ensures var mid := ProcessCommissionEvent(db, data, since, now).value.0;
      Consistent(mid) &&
      var r := ProcessRefund(mid, data.stripeChargeId, refundEventId, later);
      r.Ok? &&
      r.value.0.affiliates[data.affiliateId].totalRevenue == db.affiliates[data.affiliateId].totalRevenue &&
      r.value.0.affiliates[data.affiliateId].totalCommissions == db.affiliates[data.affiliateId].totalCommissions
  {
    CommissionEventEffect(db, data, since, now);
    CommissionEventFrame(db, data, since, now);
    var mid := ProcessCommissionEvent(db, data, since, now).value.0;
    var e := ProcessCommissionEvent(db, data, since, now).value.1;
    assert mid.events[|db.events|] == e;
    assert FindCharge(mid.events, data.stripeChargeId) == Some(|db.events|);
    assert data.stripeChargeId != RefundChargeId(data.stripeChargeId) by {
      assert |RefundChargeId(data.stripeChargeId)| == |data.stripeChargeId| + 7;
    }
    assert FindCharge(mid.events, RefundChargeId(data.stripeChargeId)).None? by {
      forall i | 0 <= i < |mid.events|
        ensures mid.events[i].stripeChargeId != RefundChargeId(data.stripeChargeId)
      {
        if i < |db.events| {
          assert mid.events[i] == db.events[i];
        }
      }
    }
    RefundEffect(mid, data.stripeChargeId, refundEventId, later);
  }

  /** The 30-day sum after one event of the table is replaced. */
  lemma {:induction false} RevenueSinceUpdate(events: seq<CommissionEvent>, k: nat, e: CommissionEvent, affiliateId: string, since: int)
    requires k < |events|
    ensures RevenueSince(events[k := e], affiliateId, since) ==
      RevenueSince(events, affiliateId, since) - RecentCharge(events[k], affiliateId, since) + RecentCharge(e, affiliateId, since)
    decreases |events|
  {
    var n := |events| - 1;
    var updated := events[k := e];
    if k < n {
      assert updated[..n] == events[..n][k := e];
      RevenueSinceUpdate(events[..n], k, e, affiliateId, since);
    } else {
      assert updated[..n] == events[..n];
    }
  }

  /** After a refund the 30-day revenue counts the negative refund event and
      no longer the original, now refunded: a recent confirmed charge is
      subtracted twice. */
  lemma RefundSubtractsTwice(db: Db, chargeId: string, stripeEventId: string, now: int, since: int)
    requires Consistent(db) && ProcessRefund(db, chargeId, stripeEventId, now).Ok?
    requires var original := db.events[FindCharge(db.events, chargeId).value];
      original.status == Confirmed && original.createdAt >= since && now >= since
    ensures var original := db.events[FindCharge(db.events, chargeId).value];
      RevenueSince(ProcessRefund(db, chargeId, stripeEventId, now).value.0.events, original.affiliateId, since) ==
      RevenueSince(db.events, original.affiliateId, since) - 2.0 * original.chargeAmount
  {
    var k := FindCharge(db.events, chargeId).value;
    var original := db.events[k];
    var after := ProcessRefund(db, chargeId, stripeEventId, now).value.0;
    var updated := db.events[k := original.(status := Refunded)];
    assert after.events == updated + [ProcessRefund(db, chargeId, stripeEventId, now).value.1];
    assert (updated + [ProcessRefund(db, chargeId, stripeEventId, now).value.1])[..|updated|] == updated;
    RevenueSinceUpdate(db.events, k, original.(status := Refunded), original.affiliateId, since);
  }

  // ------------------------------------------------------------ payouts

  /** The rows of the monthly `groupBy`: confirmed events of the month. */
  predicate InMonth(e: CommissionEvent, month: string)
  {
    e.monthYear == month && e.status == Confirmed
  }

  function MonthShare(e: CommissionEvent, affiliateId: string, month: string): real
  {
    if e.affiliateId == affiliateId && InMonth(e, month) then e.commissionAmount else 0.0
  }

  /** `_sum.commissionAmount` of one affiliate's group. */
  function MonthCommission(events: seq<CommissionEvent>, affiliateId: string, month: string): real
  {
    if |events| == 0 then 0.0
    else MonthCommission(events[..|events| - 1], affiliateId, month) + MonthShare(events[|events| - 1], affiliateId, month)
  }

  /** An affiliate without a confirmed event in the month sums to 0. */
  lemma {:induction false} MonthCommissionWithoutRows(events: seq<CommissionEvent>, affiliateId: string, month: string)
    requires forall i :: 0 <= i < |events| ==> !(InMonth(events[i], month) && events[i].affiliateId == affiliateId)
    ensures MonthCommission(events, affiliateId, month) == 0.0
    decreases |events|
  {
    if |events| > 0 {
      MonthCommissionWithoutRows(events[..|events| - 1], affiliateId, month);
    }
  }

  /** The group keys: the affiliates with a confirmed event in the month,
      each once, in order of first appearance. */
  function MonthAffiliates(events: seq<CommissionEvent>, month: string): (ids: seq<string>)
    ensures forall i, j :: 0 <= i < j < |ids| ==> ids[i] != ids[j]
    ensures forall a :: a in ids <==> exists i :: 0 <= i < |events| && InMonth(events[i], month) && events[i].affiliateId == a
  {
    if |events| == 0 then []
    else
      var prefix := events[..|events| - 1];
      var ids := MonthAffiliates(prefix, month);
      var e := events[|events| - 1];
      assert forall i :: 0 <= i < |prefix| ==> prefix[i] == events[i];
      if InMonth(e, month) && e.affiliateId !in ids then ids + [e.affiliateId] else ids
  }

  /** The groups whose sum is positive, the `having` clause. */
  function GroupsOf(ids: seq<string>, events: seq<CommissionEvent>, month: string): (g: seq<(string, real)>)
    ensures forall p :: p in g <==> p.0 in ids && p.1 == MonthCommission(events, p.0, month) && p.1 > 0.0
    ensures (forall i, j :: 0 <= i < j < |ids| ==> ids[i] != ids[j]) ==>
      forall i, j :: 0 <= i < j < |g| ==> g[i].0 != g[j].0
  {
    if |ids| == 0 then []
    else
      var rest := GroupsOf(ids[1..], events, month);
      var total := MonthCommission(events, ids[0], month);
      if total > 0.0 then [(ids[0], total)] + rest else rest
  }

  /** The result of the `groupBy` in `generateMonthlyPayouts`. */
  function PayoutGroups(events: seq<CommissionEvent>, month: string): seq<(string, real)>
  {
    GroupsOf(MonthAffiliates(events, month), events, month)
  }

  /** The groups are exactly the affiliates whose confirmed commission of
      the month sums to a positive amount, each once, with that sum. */
  lemma PayoutGroupsExactly(events: seq<CommissionEvent>, month: string)
    ensures forall a: string, s: real :: (a, s) in PayoutGroups(events, month) <==>
      s == MonthCommission(events, a, month) && s > 0.0
    ensures var g := PayoutGroups(events, month);
      forall i, j :: 0 <= i < j < |g| ==> g[i].0 != g[j].0
  {
    forall a: string | MonthCommission(events, a, month) > 0.0
      ensures a in MonthAffiliates(events, month)
    {
      if a !in MonthAffiliates(events, month) {
        MonthCommissionWithoutRows(events, a, month);
      }
    }
  }

  /** The payouts created so far and the payout table as it stands. */
  datatype PayoutState = PayoutState(created: seq<Payout>, stored: map<(string, string), Payout>)

  /** One turn of the payouts loop: a group with a positive sum and no
      payout yet for its affiliate and the month gets a pending payout,
      stored and pushed. */
  function PayoutStep(s: PayoutState, g: (string, real), month: string): PayoutState
  {
    if g.1 > 0.0 && (g.0, month) !in s.stored then
      var p := Payout(g.0, month, g.1, "pending");
      PayoutState(s.created + [p], s.stored[(g.0, month) := p])
    else s
  }

  /** The payouts loop over the groups, starting from the stored payouts. */
  function PayoutRun(groups: seq<(string, real)>, existing: map<(string, string), Payout>, month: string): PayoutState
  {
    if |groups| == 0 then PayoutState([], existing)
    else PayoutStep(PayoutRun(groups[..|groups| - 1], existing, month), groups[|groups| - 1], month)
  }

  /** `generateMonthlyPayouts` for `month`: the database afterwards and the
      payouts created, in group order. */
  method GenerateMonthlyPayouts(db: Db, month: string) returns (after: Db, payouts: seq<Payout>)
    ensures var run := PayoutRun(PayoutGroups(db.events, month), db.payouts, month);
      payouts == run.created && after == db.(payouts := run.stored)
  {
    var groups := PayoutGroups(db.events, month);
    var stored := db.payouts;
    payouts := [];
    var i := 0;
    while i < |groups|
      invariant 0 <= i <= |groups|
      invariant PayoutState(payouts, stored) == PayoutRun(groups[..i], db.payouts, month)
    {
      ghost var before := PayoutState(payouts, stored);
      var totalCommission := groups[i].1;
      if totalCommission > 0.0 {
        if (groups[i].0, month) !in stored {
          var payout := Payout(groups[i].0, month, totalCommission, "pending");
          stored := stored[(groups[i].0, month) := payout];
          payouts := payouts + [payout];
        }
      }
      assert PayoutState(payouts, stored) == PayoutStep(before, groups[i], month);
      assert groups[..i + 1][..i] == groups[..i];
      assert PayoutRun(groups[..i + 1], db.payouts, month) == PayoutStep(before, groups[i], month);
      i := i + 1;
    }
    assert groups[..i] == groups;
    after := db.(payouts := stored);
  }

  /** A payout the run may have created: pending, for the month, with a
      positive total taken from a group, under a key that was free before the
      run and now holds it. */
  predicate CreatedFrom(p: Payout, groups: seq<(string, real)>, existing: map<(string, string), Payout>, month: string, stored: map<(string, string), Payout>)
  {
    p.payoutMonth == month && p.status == "pending" && p.totalCommission > 0.0 &&
    (p.affiliateId, p.totalCommission) in groups &&
    (p.affiliateId, month) !in existing &&
    (p.affiliateId, month) in stored && stored[(p.affiliateId, month)] == p
  }

  /** What the payouts loop keeps: stored payouts are never replaced, every
      created payout is as above and for a different affiliate, and every new
      key belongs to a created payout. */
  predicate RunInvariant(groups: seq<(string, real)>, existing: map<(string, string), Payout>, month: string, s: PayoutState)
  {
    CreatedInvariant(groups, existing, month, s) && NewKeysCreated(existing, month, s)
  }

  predicate CreatedInvariant(groups: seq<(string, real)>, existing: map<(string, string), Payout>, month: string, s: PayoutState)
  {
    (forall k :: k in existing ==> k in s.stored && s.stored[k] == existing[k]) &&
    (forall i :: 0 <= i < |s.created| ==> CreatedFrom(s.created[i], groups, existing, month, s.stored)) &&
    (forall i, j :: 0 <= i < j < |s.created| ==> s.created[i].affiliateId != s.created[j].affiliateId)
  }

  predicate NewKeysCreated(existing: map<(string, string), Payout>, month: string, s: PayoutState)
  {
    forall k :: k in s.stored && k !in existing ==>
      exists i :: 0 <= i < |s.created| && (s.created[i].affiliateId, month) == k
  }

  lemma StepKeepsCreated(groups: seq<(string, real)>, existing: map<(string, string), Payout>, month: string,
                         s: PayoutState, g: (string, real))
    requires CreatedInvariant(groups, existing, month, s) && g in groups
    ensures CreatedInvariant(groups, existing, month, PayoutStep(s, g, month))
  {
    if g.1 > 0.0 && (g.0, month) !in s.stored {
      var p := Payout(g.0, month, g.1, "pending");
      var t := PayoutStep(s, g, month);
      assert t.created == s.created + [p];
      forall i | 0 <= i < |s.created|
        ensures s.created[i].affiliateId != g.0
        ensures CreatedFrom(s.created[i], groups, existing, month, t.stored)
      {
        assert CreatedFrom(s.created[i], groups, existing, month, s.stored);
      }
    }
  }

  lemma StepKeepsNewKeys(existing: map<(string, string), Payout>, month: string, s: PayoutState, g: (string, real))
    requires NewKeysCreated(existing, month, s)
    ensures NewKeysCreated(existing, month, PayoutStep(s, g, month))
  {
    if g.1 > 0.0 && (g.0, month) !in s.stored {
      var t := PayoutStep(s, g, month);
      forall k | k in t.stored && k !in existing
        ensures exists i :: 0 <= i < |t.created| && (t.created[i].affiliateId, month) == k
      {
        if k == (g.0, month) {
          assert (t.created[|s.created|].affiliateId, month) == k;
        } else {
          var i :| 0 <= i < |s.created| && (s.created[i].affiliateId, month) == k;
          assert t.created[i] == s.created[i];
        }
      }
    }
  }

  lemma WidenInvariant(groups: seq<(string, real)>, n: nat, existing: map<(string, string), Payout>, month: string, s: PayoutState)
    requires n <= |groups| && RunInvariant(groups[..n], existing, month, s)
    ensures RunInvariant(groups, existing, month, s)
  {
    forall i | 0 <= i < |s.created|
      ensures CreatedFrom(s.created[i], groups, existing, month, s.stored)
    {
      assert CreatedFrom(s.created[i], groups[..n], existing, month, s.stored);
      var j :| 0 <= j < n && groups[..n][j] == (s.created[i].affiliateId, s.created[i].totalCommission);
      assert groups[j] == groups[..n][j];
    }
  }

  /** A run keeps every stored payout, creates pending payouts only for
      groups with a positive sum and a free (affiliate, month) key, at most
      one per affiliate, and stores each under its key. */
  lemma {:induction false} PayoutRunShape(groups: seq<(string, real)>, existing: map<(string, string), Payout>, month: string)
    ensures RunInvariant(groups, existing, month, PayoutRun(groups, existing, month))
    decreases |groups|
  {
    if |groups| > 0 {
      var n := |groups| - 1;
      PayoutRunShape(groups[..n], existing, month);
      var prev := PayoutRun(groups[..n], existing, month);
      WidenInvariant(groups, n, existing, month, prev);
      StepKeepsCreated(groups, existing, month, prev, groups[n]);
      StepKeepsNewKeys(existing, month, prev, groups[n]);
    }
  }

  /** After a run every group with a positive sum has a payout for the
      month. */
  lemma {:induction false} PayoutRunCovers(groups: seq<(string, real)>, existing: map<(string, string), Payout>, month: string)
    ensures forall g :: g in groups && g.1 > 0.0 ==> (g.0, month) in PayoutRun(groups, existing, month).stored
    decreases |groups|
  {
    if |groups| > 0 {
      var n := |groups| - 1;
      PayoutRunCovers(groups[..n], existing, month);
      var prev := PayoutRun(groups[..n], existing, month);
      var r := PayoutRun(groups, existing, month);
      assert prev.stored.Keys <= r.stored.Keys;
      forall g | g in groups && g.1 > 0.0
        ensures (g.0, month) in r.stored
      {
        if g != groups[n] {
          var j :| 0 <= j < |groups| && groups[j] == g;
          assert groups[..n][j] == g;
        }
      }
    }
  }

  /** Once every group with a positive sum has its payout, a run creates
      nothing and stores nothing. */
  lemma {:induction false} PayoutRunCovered(groups: seq<(string, real)>, stored: map<(string, string), Payout>, month: string)
    requires forall g :: g in groups && g.1 > 0.0 ==> (g.0, month) in stored
    ensures PayoutRun(groups, stored, month) == PayoutState([], stored)
    decreases |groups|
  {
    if |groups| > 0 {
      assert forall g :: g in groups[..|groups| - 1] ==> g in groups;
      PayoutRunCovered(groups[..|groups| - 1], stored, month);
    }
  }

  /** Generating the payouts of a month again, with the events unchanged,
      creates none and changes nothing. */
  lemma RerunCreatesNothing(db: Db, month: string)
    ensures var run := PayoutRun(PayoutGroups(db.events, month), db.payouts, month);
      PayoutRun(PayoutGroups(db.events, month), run.stored, month) == PayoutState([], run.stored)
  {
    PayoutRunCovers(PayoutGroups(db.events, month), db.payouts, month);
    var run := PayoutRun(PayoutGroups(db.events, month), db.payouts, month);
    PayoutRunCovered(PayoutGroups(db.events, month), run.stored, month);
  }

  /** Each payout created carries its affiliate's confirmed commission for
      the month, which is positive; the affiliates that receive one are
      exactly those with a positive sum and no payout for the month yet. */
  lemma PayoutsCreated(db: Db, month: string)
    ensures var created := PayoutRun(PayoutGroups(db.events, month), db.payouts, month).created;
      (forall i :: 0 <= i < |created| ==>
        created[i].totalCommission == MonthCommission(db.events, created[i].affiliateId, month) &&
        created[i].totalCommission > 0.0) &&
      (forall a: string :: (exists i :: 0 <= i < |created| && created[i].affiliateId == a) <==>
        MonthCommission(db.events, a, month) > 0.0 && (a, month) !in db.payouts)
  {
    var groups := PayoutGroups(db.events, month);
    PayoutGroupsExactly(db.events, month);
    PayoutRunShape(groups, db.payouts, month);
    PayoutRunCovers(groups, db.payouts, month);
    var r := PayoutRun(groups, db.payouts, month);
    forall a: string | MonthCommission(db.events, a, month) > 0.0 && (a, month) !in db.payouts
      ensures exists i :: 0 <= i < |r.created| && r.created[i].affiliateId == a
    {
      assert (a, MonthCommission(db.events, a, month)) in groups;
      var i :| 0 <= i < |r.created| && (r.created[i].affiliateId, month) == (a, month);
    }
  }
}
