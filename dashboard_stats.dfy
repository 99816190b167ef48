/**
 * The statistics cards above the vault: how many entries there are, how
 * many fall in each strength bucket, how many are favourites, and which
 * categories occur.
 */
module DashboardStats {
  import opened Wrappers
  import PasswordCard
  import Dashboard

  /**
   * The three strength buckets. A comparison with an absent strength is
   * false, so an unrated entry falls in none of them.
   */
  datatype Bucket = StrongBucket | MediumBucket | WeakBucket

  predicate InBucket(strength: Option<int>, b: Bucket) {
    strength.Some? &&
    match b
    case StrongBucket => strength.value >= 4
    case MediumBucket => strength.value >= 2 && strength.value < 4
    case WeakBucket => strength.value < 2
  }

  /** `passwords.filter(p => ...).length` for one bucket. */
  function CountIn(items: seq<Dashboard.Item>, b: Bucket): (n: nat)
    ensures n <= |items|
  {
    if items == [] then 0 else (if InBucket(items[0].strength, b) then 1 else 0) + CountIn(items[1..], b)
  }

  /** The entries without a strength. */
  function Unrated(items: seq<Dashboard.Item>): (n: nat)
    ensures n <= |items|
  {
    if items == [] then 0 else (if items[0].strength.None? then 1 else 0) + Unrated(items[1..])
  }

  /** `passwords.filter(p => p.favorite).length`. */
  function FavoriteCount(items: seq<Dashboard.Item>): (n: nat)
    ensures n <= |items|
  {
    if items == [] then 0 else (if items[0].favorite then 1 else 0) + FavoriteCount(items[1..])
  }

  /** What the cards show. */
  datatype Stats = Stats(total: nat, strong: nat, medium: nat, weak: nat, favorites: nat, categories: seq<string>)

  function Compute(items: seq<Dashboard.Item>): (s: Stats)
    ensures s.total == |items|
    ensures s.strong <= s.total && s.medium <= s.total && s.weak <= s.total && s.favorites <= s.total
  {
    Stats(|items|, CountIn(items, StrongBucket), CountIn(items, MediumBucket), CountIn(items, WeakBucket),
          FavoriteCount(items), Dedup(Categories(items)))
  }

  /** An entry lies in at most one bucket, and a rated entry in exactly one. */
  lemma BucketsPartition(strength: Option<int>)
    ensures forall b1, b2 :: InBucket(strength, b1) && InBucket(strength, b2) ==> b1 == b2
    ensures strength.Some? <==> exists b :: InBucket(strength, b)
  {
    if strength.Some? {
      var v := strength.value;
      if v >= 4 { assert InBucket(strength, StrongBucket); }
      else if v >= 2 { assert InBucket(strength, MediumBucket); }
      else { assert InBucket(strength, WeakBucket); }
    }
  }

  /** Every entry is counted once: in its bucket, or among the unrated. */
  lemma {:induction false} BucketsCoverRated(items: seq<Dashboard.Item>)
    ensures CountIn(items, StrongBucket) + CountIn(items, MediumBucket) + CountIn(items, WeakBucket) + Unrated(items) == |items|
  {
    if items != [] {
      BucketsCoverRated(items[1..]);
    }
  }

  lemma {:induction false} UnratedZero(items: seq<Dashboard.Item>)
    ensures Unrated(items) == 0 <==> forall k :: 0 <= k < |items| ==> items[k].strength.Some?
  {
    if items != [] {
      UnratedZero(items[1..]);
      if Unrated(items) == 0 {
        forall k | 0 <= k < |items| ensures items[k].strength.Some? {
          if k > 0 { assert items[k] == items[1..][k - 1]; }
        }
      }
      if forall k :: 0 <= k < |items| ==> items[k].strength.Some? {
        assert forall k :: 0 <= k < |items[1..]| ==> items[1..][k] == items[k + 1];
      }
    }
  }

  /** The three bucket counts add up to the total exactly when every entry has a strength. */
  lemma BucketsSumToTotal(items: seq<Dashboard.Item>)
    ensures var s := Compute(items);
            s.strong + s.medium + s.weak == s.total <==> forall k :: 0 <= k < |items| ==> items[k].strength.Some?
  {
    BucketsCoverRated(items);
    UnratedZero(items);
  }

  /** The strong card counts what the entry card labels "Strong". */
  lemma StrongMatchesCardLabel(x: Dashboard.Item)
    ensures InBucket(x.strength, StrongBucket) <==> PasswordCard.StrengthLabel(PasswordCard.Shown(x.strength)) == "Strong"
    ensures InBucket(x.strength, MediumBucket) <==> PasswordCard.StrengthLabel(PasswordCard.Shown(x.strength)) == "Medium"
  {
  }

  /** An unrated entry shows as "Weak" on its card but is not counted as weak. */
  lemma UnratedNotCountedWeak(x: Dashboard.Item)
    requires x.strength.None?
    ensures PasswordCard.StrengthLabel(PasswordCard.Shown(x.strength)) == "Weak"
    ensures CountIn([x], WeakBucket) == 0
  {
  }

  /** The favourites card counts exactly the entries the favourites switch shows. */
  lemma {:induction false} FavoritesMatchFilter(items: seq<Dashboard.Item>)
    ensures FavoriteCount(items) == |Dashboard.Filter(items, Dashboard.Filters("", Dashboard.AllCategories, true))|
  {
    if items != [] {
      Dashboard.EmptyTermMatches(items[0]);
      FavoritesMatchFilter(items[1..]);
    }
  }

  // ---------------------------------------------------------------------------
  // Categories

  function Categories(items: seq<Dashboard.Item>): (r: seq<string>)
    ensures |r| == |items|
    ensures forall k :: 0 <= k < |items| ==> r[k] == items[k].category
  {
    if items == [] then [] else [items[0].category] + Categories(items[1..])
  }

  /** `[...new Set(s)]`: each value once, where it first occurs. */
  function Dedup(s: seq<string>): (r: seq<string>)
    ensures forall x :: x in r <==> x in s
  {
    if s == [] then []
    else
      var d := Dedup(s[..|s| - 1]);
      assert forall x :: x in s <==> x in s[..|s| - 1] || x == s[|s| - 1];
      if s[|s| - 1] in d then d else d + [s[|s| - 1]]
  }

  /** Position of the first occurrence of `x` in `s`. */
  function FirstIndex(s: seq<string>, x: string): (i: nat)
    requires x in s
    ensures i < |s| && s[i] == x && x !in s[..i]
  {
    if s[0] == x then 0 else 1 + FirstIndex(s[1..], x)
  }

  predicate Distinct(s: seq<string>) {
    forall i, j :: 0 <= i < j < |s| ==> s[i] != s[j]
  }

  /** In `r`, values appear in the order of their first occurrence in `s`. */
  predicate InFirstOccurrenceOrder(r: seq<string>, s: seq<string>)
    requires forall x :: x in r ==> x in s
  {
    forall i, j :: 0 <= i < j < |r| ==> FirstIndex(s, r[i]) < FirstIndex(s, r[j])
  }

  lemma FirstIndexPrefix(s: seq<string>, m: nat, x: string)
    requires m <= |s| && x in s[..m]
    ensures FirstIndex(s, x) == FirstIndex(s[..m], x)
  {
    var i := FirstIndex(s[..m], x);
    assert s[..m][..i] == s[..i];
    FirstIndexUnique(s, x, i);
  }

  /** The first occurrence is the only position holding `x` with no `x` before it. */
  lemma FirstIndexUnique(s: seq<string>, x: string, i: nat)
    requires i < |s| && s[i] == x && x !in s[..i]
    ensures FirstIndex(s, x) == i
  {
    var f := FirstIndex(s, x);
    forall j | 0 <= j < i ensures s[j] != x {
      assert s[..i][j] == s[j];
    }
    forall j | 0 <= j < f ensures s[j] != x {
      assert s[..f][j] == s[j];
    }
  }

  /** The category list holds each category once, in order of first appearance. */
  lemma {:induction false} DedupSpec(s: seq<string>)
    ensures Distinct(Dedup(s))
    ensures InFirstOccurrenceOrder(Dedup(s), s)
  {
    if s != [] {
      var n := |s| - 1;
      var init := s[..n];
      var d := Dedup(init);
      DedupSpec(init);
      forall x | x in d ensures FirstIndex(s, x) == FirstIndex(init, x) {
        FirstIndexPrefix(s, n, x);
      }
      if s[n] !in d {
        assert s[n] !in s[..n];
        FirstIndexUnique(s, s[n], n);
        var r := d + [s[n]];
        assert forall i :: 0 <= i < |d| ==> r[i] == d[i] && FirstIndex(init, d[i]) < n;
      }
    }
  }

  /** Every category of the vault appears exactly once on the categories card. */
  lemma CategoriesOnce(items: seq<Dashboard.Item>, k: nat)
    requires k < |items|
    ensures items[k].category in Compute(items).categories
    ensures forall i, j :: 0 <= i < j < |Compute(items).categories| ==> Compute(items).categories[i] != Compute(items).categories[j]
  {
    DedupSpec(Categories(items));
    assert Categories(items)[k] == items[k].category;
  }
}
