/** The annual saving a pricing page may claim, in exact minor units. */
module Pricing {
  import opened Wrappers

  /** Prices in minor units. */
  datatype Tier = Tier(name: string, rank: int, monthly: int, annual: int)

  /** Minor units saved, and the months that is worth, in hundredths. */
  datatype Saving = Saving(amount: int, hundredths: int)

  predicate IsFree(t: Tier) {
    t.annual == 0 && t.monthly == 0
  }

  /** Math.round: to the nearest integer, halves upwards. */
  function RoundedRatio(a: int, b: int): (r: int)
    requires b > 0
    ensures a >= 0 ==> r >= 0
  {
    (2 * a + b) / (2 * b)
  }

  function AnnualSaving(t: Tier): Option<Saving> {
    if t.monthly <= 0 || t.annual <= 0 then None
    else
      var saved := t.monthly * 12 - t.annual;
      if saved <= 0 then None else Some(Saving(saved, RoundedRatio(100 * saved, t.monthly)))
  }

  lemma RoundedRatioIsNear(a: int, b: int)
    requires b > 0
    ensures -b <= 2 * a - 2 * b * RoundedRatio(a, b) < b
  {
    var n, d := 2 * a + b, 2 * b;
    assert n == d * (n / d) + n % d;
    assert 0 <= n % d < d;
  }

  lemma ProductIsNonNegative(x: int, y: int)
    requires x >= 0 && y >= 0
    ensures x * y >= 0
  {
  }

  lemma NoMultipleBetween(d: int, x: int)
    requires d > 0 && x != 0
    ensures d * x >= d || d * x <= -d
  {
    if x > 0 {
      ProductIsNonNegative(d, x - 1);
      assert d * (x - 1) == d * x - d;
    } else {
      ProductIsNonNegative(d, -x - 1);
      assert d * (-x - 1) == -(d * x) - d;
    }
  }

  /** Only one integer is that near. */
  lemma RoundedRatioIsUnique(a: int, b: int, r: int)
    requires b > 0 && -b <= 2 * a - 2 * b * r < b
    ensures RoundedRatio(a, b) == r
  {
    var q, d := RoundedRatio(a, b), 2 * b;
    RoundedRatioIsNear(a, b);
    assert d * (q - r) == d * q - d * r;
    if q != r {
      NoMultipleBetween(d, q - r);
    }
  }

  lemma ScaledRatio(monthly: int, k: int)
    requires monthly > 0
    ensures RoundedRatio(100 * (monthly * k), monthly) == 100 * k
  {
    assert 2 * (100 * (monthly * k)) - 2 * monthly * (100 * k) == 0;
    RoundedRatioIsUnique(100 * (monthly * k), monthly, 100 * k);
  }

  lemma SmallRatio(saved: int, monthly: int)
    requires 0 < saved && monthly > 0
    ensures RoundedRatio(100 * saved, monthly) >= 0
    ensures RoundedRatio(100 * saved, monthly) == 0 <==> 200 * saved < monthly
  {
    RoundedRatioIsNear(100 * saved, monthly);
    if 200 * saved < monthly {
      RoundedRatioIsUnique(100 * saved, monthly, 0);
    }
  }

  /**
   No saving is claimed exactly when a price is not positive or a year costs at least twelve months. A claimed
   one is the true difference, its months are within half a hundredth of saved over monthly, it is whole when
   the year costs a whole number of months, and it reads as zero months exactly when it is worth less than
   half a hundredth of one.
   */
  lemma SavingIsHonest(t: Tier)
    ensures AnnualSaving(t).None? <==> t.monthly <= 0 || t.annual <= 0 || t.annual >= 12 * t.monthly
    ensures AnnualSaving(t).Some? ==>
              var s := AnnualSaving(t).value;
              && s.amount == 12 * t.monthly - t.annual > 0
              && -t.monthly <= 200 * s.amount - 2 * t.monthly * s.hundredths < t.monthly
              && (forall k | t.annual == k * t.monthly :: s.hundredths == 100 * (12 - k))
              && (s.hundredths == 0 <==> 200 * s.amount < t.monthly)
  {
    if AnnualSaving(t).Some? {
      var s := AnnualSaving(t).value;
      RoundedRatioIsNear(100 * s.amount, t.monthly);
      SmallRatio(s.amount, t.monthly);
      forall k | t.annual == k * t.monthly ensures s.hundredths == 100 * (12 - k) {
        assert s.amount == t.monthly * (12 - k);
        ScaledRatio(t.monthly, 12 - k);
      }
    }
  }

  /** A year one minor unit below twelve months: something is saved, and the note says zero months. */
  lemma ASavingReadsAsZeroMonths()
    ensures AnnualSaving(Tier("standard", 1, 1000, 11999)) == Some(Saving(1, 0))
    ensures SavingNote([Tier("standard", 1, 1000, 11999)]) == Some(0)
  {
    var t := Tier("standard", 1, 1000, 11999);
    assert [t][..0] == [] && Paid([t]) == [t];
  }

  // ---- The headline ------------------------------------------------------------------------------------------------

  function Paid(tiers: seq<Tier>): seq<Tier> {
    if tiers == [] then []
    else Paid(tiers[..|tiers| - 1]) + if IsFree(tiers[|tiers| - 1]) then [] else [tiers[|tiers| - 1]]
  }

  /** savings[0] and savings.every(...): the months the note names, or no note. */
  function SavingNote(tiers: seq<Tier>): Option<int> {
    var paid := Paid(tiers);
    if paid == [] || AnnualSaving(paid[0]).None? then None
    else
      var months := AnnualSaving(paid[0]).value.hundredths;
      if forall i | 0 <= i < |paid| :: AnnualSaving(paid[i]).Some? && AnnualSaving(paid[i]).value.hundredths == months
      then Some(months) else None
  }

  predicate Saves(t: Tier, months: int) {
    AnnualSaving(t).Some? && AnnualSaving(t).value.hundredths == months
  }

  lemma {:induction false} PaidMembers(tiers: seq<Tier>, t: Tier)
    ensures t in Paid(tiers) <==> t in tiers && !IsFree(t)
  {
    if tiers != [] {
      PaidMembers(tiers[..|tiers| - 1], t);
      assert tiers == tiers[..|tiers| - 1] + [tiers[|tiers| - 1]];
    }
  }

  /** The note appears, naming so many months, exactly when there is a paid plan and every paid plan saves just that. */
  lemma NoteIffUniform(tiers: seq<Tier>, months: int)
    ensures SavingNote(tiers) == Some(months) <==>
              && (exists t :: t in tiers && (t.annual != 0 || t.monthly != 0))
              && forall t | t in tiers && (t.annual != 0 || t.monthly != 0) :: Saves(t, months)
  {
    var paid := Paid(tiers);
    forall t ensures t in paid <==> t in tiers && !IsFree(t) {
      PaidMembers(tiers, t);
    }
    if SavingNote(tiers) == Some(months) {
      assert paid[0] in paid;
      forall t | t in paid ensures Saves(t, months) {
        var i :| 0 <= i < |paid| && paid[i] == t;
      }
    } else if paid != [] && forall t | t in paid :: Saves(t, months) {
      assert forall i | 0 <= i < |paid| :: paid[i] in paid && Saves(paid[i], months);
    }
  }

  // ---- Order -------------------------------------------------------------------------------------------

  /** Insertion into a list sorted by rank, after its equals. */
  function Inserted(sorted: seq<Tier>, t: Tier): seq<Tier> {
    if sorted == [] || sorted[|sorted| - 1].rank <= t.rank then sorted + [t]
    else Inserted(sorted[..|sorted| - 1], t) + [sorted[|sorted| - 1]]
  }

  function OrderedTiers(tiers: seq<Tier>): seq<Tier> {
    if tiers == [] then [] else Inserted(OrderedTiers(tiers[..|tiers| - 1]), tiers[|tiers| - 1])
  }

  ghost predicate ByRank(tiers: seq<Tier>) {
    forall i, j | 0 <= i < j < |tiers| :: tiers[i].rank <= tiers[j].rank
  }

  function WithRank(tiers: seq<Tier>, rank: int): seq<Tier> {
    if tiers == [] then []
    else WithRank(tiers[..|tiers| - 1], rank) + if tiers[|tiers| - 1].rank == rank then [tiers[|tiers| - 1]] else []
  }

  lemma WithRankAppend(tiers: seq<Tier>, t: Tier, rank: int)
    ensures WithRank(tiers + [t], rank) == WithRank(tiers, rank) + if t.rank == rank then [t] else []
  {
    assert (tiers + [t])[..|tiers|] == tiers;
  }

  lemma {:induction false} NoneOfHigherRank(tiers: seq<Tier>, rank: int)
    requires forall i | 0 <= i < |tiers| :: tiers[i].rank < rank
    ensures WithRank(tiers, rank) == []
  {
    if tiers != [] {
      NoneOfHigherRank(tiers[..|tiers| - 1], rank);
    }
  }

  lemma {:induction false} InsertedMembers(sorted: seq<Tier>, t: Tier, x: Tier)
    ensures x in Inserted(sorted, t) <==> x in sorted || x == t
  {
    if sorted != [] && sorted[|sorted| - 1].rank > t.rank {
      var front, last := sorted[..|sorted| - 1], sorted[|sorted| - 1];
      InsertedMembers(front, t, x);
      assert sorted == front + [last];
    }
  }

  lemma LastIsHighest(sorted: seq<Tier>, x: Tier)
    requires ByRank(sorted) && x in sorted
    ensures x.rank <= sorted[|sorted| - 1].rank
  {
  }

  lemma HigherAtTheEnd(tiers: seq<Tier>, last: Tier)
    requires ByRank(tiers) && forall x | x in tiers :: x.rank <= last.rank
    ensures ByRank(tiers + [last])
  {
    assert forall i | 0 <= i < |tiers| :: tiers[i] in tiers;
  }

  lemma {:induction false} InsertedKeepsOrder(sorted: seq<Tier>, t: Tier)
    requires ByRank(sorted)
    ensures ByRank(Inserted(sorted, t))
  {
    if sorted != [] {
      var front, last := sorted[..|sorted| - 1], sorted[|sorted| - 1];
      if last.rank > t.rank {
        InsertedKeepsOrder(front, t);
        forall x | x in Inserted(front, t) ensures x.rank <= last.rank {
          InsertedMembers(front, t, x);
          if x in front {
            LastIsHighest(sorted, x);
          }
        }
        HigherAtTheEnd(Inserted(front, t), last);
      } else {
        forall x | x in sorted ensures x.rank <= t.rank {
          LastIsHighest(sorted, x);
        }
        HigherAtTheEnd(sorted, t);
      }
    }
  }

  lemma {:induction false} InsertedWithRank(sorted: seq<Tier>, t: Tier, rank: int)
    requires ByRank(sorted)
    ensures WithRank(Inserted(sorted, t), rank) == WithRank(sorted, rank) + if t.rank == rank then [t] else []
  {
    if sorted == [] || sorted[|sorted| - 1].rank <= t.rank {
      WithRankAppend(sorted, t, rank);
    } else {
      var front, last := sorted[..|sorted| - 1], sorted[|sorted| - 1];
      InsertedWithRank(front, t, rank);
      WithRankAppend(Inserted(front, t), last, rank);
    }
  }

  /**
   The tiers come out by rank, and tiers of one rank stay as they were listed: nothing is lost, added or
   swapped.
   */
  lemma {:induction false} OrderIsStable(tiers: seq<Tier>)
    ensures ByRank(OrderedTiers(tiers))
    ensures forall rank :: WithRank(OrderedTiers(tiers), rank) == WithRank(tiers, rank)
    ensures forall t :: t in OrderedTiers(tiers) <==> t in tiers
  {
    if tiers != [] {
      var front, last := tiers[..|tiers| - 1], tiers[|tiers| - 1];
      OrderIsStable(front);
      InsertedKeepsOrder(OrderedTiers(front), last);
      forall t ensures t in OrderedTiers(tiers) <==> t in tiers {
        InsertedMembers(OrderedTiers(front), last, t);
      }
      forall rank ensures WithRank(OrderedTiers(tiers), rank) == WithRank(tiers, rank) {
        InsertedWithRank(OrderedTiers(front), last, rank);
      }
      assert tiers == front + [last];
    }
  }

  /** The headline does not depend on the order the config lists its tiers in. */
  lemma NoteIgnoresOrder(tiers: seq<Tier>)
    ensures SavingNote(OrderedTiers(tiers)) == SavingNote(tiers)
  {
    OrderIsStable(tiers);
    var ordered := OrderedTiers(tiers);
    if SavingNote(tiers).Some? {
      NoteIffUniform(tiers, SavingNote(tiers).value);
      NoteIffUniform(ordered, SavingNote(tiers).value);
    }
    if SavingNote(ordered).Some? {
      NoteIffUniform(tiers, SavingNote(ordered).value);
      NoteIffUniform(ordered, SavingNote(ordered).value);
    }
  }
}
