/** The snapshot job: its timestamped keys, its prune pipeline, and what runs of jobs retain. */
module SnapshotRetention {
  import opened Strings
  import opened Sorting

  // ---- keys ----

  /** A UTC reading of `date`, with the fields the key format prints. */
  datatype Time = Time(year: nat, month: nat, day: nat, hour: nat, minute: nat, second: nat) {
    predicate Valid() {
      year <= 9999 && month <= 12 && day <= 31 && hour < 24 && minute < 60 && second <= 60
    }
  }

  /** Chronological order. */
  predicate Earlier(a: Time, b: Time) {
    || a.year < b.year
    || (a.year == b.year && (
          || a.month < b.month
          || (a.month == b.month && (
                || a.day < b.day
                || (a.day == b.day && (
                      || a.hour < b.hour
                      || (a.hour == b.hour && (
                            || a.minute < b.minute
                            || (a.minute == b.minute && a.second < b.second)))))))))
  }

  function TimeOfDay(t: Time): string {
    Padded(t.hour, 2) + (Padded(t.minute, 2) + (Padded(t.second, 2) + "Z.tar.zst"))
  }

  function DateAndTime(t: Time): string {
    Padded(t.year, 4) + (Padded(t.month, 2) + (Padded(t.day, 2) + ("T" + TimeOfDay(t))))
  }

  function Key(t: Time): string {
    "snap-" + DateAndTime(t)
  }

  lemma FieldOrder(n: nat, m: nat, w: nat, x: string, y: string)
    requires n < Pow10(w) && m < Pow10(w)
    ensures Le(Padded(n, w) + x, Padded(m, w) + y) <==> n < m || (n == m && Le(x, y))
    ensures Padded(n, w) + x == Padded(m, w) + y <==> n == m && x == y
  {
    var a, c := Padded(n, w), Padded(m, w);
    PaddedOrder(n, m, w);
    LeConcat(a, x, c, y);
    assert (a + x)[..w] == a && (c + y)[..w] == c && (a + x)[w..] == x && (c + y)[w..] == y;
  }

  lemma PrefixOrder(p: string, x: string, y: string)
    ensures Le(p + x, p + y) <==> Le(x, y)
    ensures p + x == p + y <==> x == y
  {
    LeConcat(p, x, p, y);
    assert (p + x)[|p|..] == x && (p + y)[|p|..] == y;
  }

  lemma Widths()
    ensures Pow10(2) == 100 && Pow10(4) == 10000
  {
  }

  lemma TimeOfDayOrder(a: Time, b: Time)
    requires a.Valid() && b.Valid()
    ensures Le(TimeOfDay(a), TimeOfDay(b)) <==>
            a.hour < b.hour || (a.hour == b.hour && (
              a.minute < b.minute || (a.minute == b.minute && a.second <= b.second)))
    ensures TimeOfDay(a) == TimeOfDay(b) <==> a.hour == b.hour && a.minute == b.minute && a.second == b.second
  {
    Widths();
    var z := "Z.tar.zst";
    var sa, sb := Padded(a.second, 2) + z, Padded(b.second, 2) + z;
    var ma, mb := Padded(a.minute, 2) + sa, Padded(b.minute, 2) + sb;
    LeTotal(z, z);
    FieldOrder(a.second, b.second, 2, z, z);
    FieldOrder(a.minute, b.minute, 2, sa, sb);
    FieldOrder(a.hour, b.hour, 2, ma, mb);
  }

  lemma DateAndTimeOrder(a: Time, b: Time)
    requires a.Valid() && b.Valid()
    ensures Le(DateAndTime(a), DateAndTime(b)) <==> Earlier(a, b) || a == b
    ensures DateAndTime(a) == DateAndTime(b) <==> a == b
  {
    Widths();
    TimeOfDayOrder(a, b);
    var ta, tb := "T" + TimeOfDay(a), "T" + TimeOfDay(b);
    var da, db := Padded(a.day, 2) + ta, Padded(b.day, 2) + tb;
    var ma, mb := Padded(a.month, 2) + da, Padded(b.month, 2) + db;
    PrefixOrder("T", TimeOfDay(a), TimeOfDay(b));
    FieldOrder(a.day, b.day, 2, ta, tb);
    FieldOrder(a.month, b.month, 2, da, db);
    FieldOrder(a.year, b.year, 4, ma, mb);
  }

  /** Sorting keys as strings sorts them by time: the format is a strict order embedding. */
  lemma KeyOrder(a: Time, b: Time)
    requires a.Valid() && b.Valid()
    ensures Le(Key(a), Key(b)) <==> Earlier(a, b) || a == b
    ensures Key(a) == Key(b) <==> a == b
  {
    DateAndTimeOrder(a, b);
    PrefixOrder("snap-", DateAndTime(a), DateAndTime(b));
  }

  /** A padded field at the front can be read back, and what follows it too. */
  lemma Field(n: nat, w: nat, after: string)
    requires n < Pow10(w)
    ensures var s := Padded(n, w) + after;
            |s| == w + |after| && Value(s[..w]) == n && s[w..] == after
  {
    PaddedReadsBack(n, w);
    assert (Padded(n, w) + after)[..w] == Padded(n, w);
  }

  /** Reading on from where a part was found. */
  lemma Deeper(s: string, i: nat, t: string, j: nat)
    requires i <= |s| && s[i..] == t && j <= |t|
    ensures s[i..i + j] == t[..j] && s[i + j..] == t[j..]
  {
  }

  lemma TimeReadsBack(t: Time)
    requires t.Valid()
    ensures var s := TimeOfDay(t);
            && |s| == 15 && s[6..] == "Z.tar.zst"
            && Value(s[..2]) == t.hour && Value(s[2..4]) == t.minute && Value(s[4..6]) == t.second
  {
    Widths();
    var sec := Padded(t.second, 2) + "Z.tar.zst";
    var min := Padded(t.minute, 2) + sec;
    var s := TimeOfDay(t);
    Field(t.hour, 2, min);
    Field(t.minute, 2, sec);
    Field(t.second, 2, "Z.tar.zst");
    Deeper(s, 2, min, 2);
    Deeper(s, 4, sec, 2);
  }

  lemma DateReadsBack(t: Time)
    requires t.Valid()
    ensures var s := DateAndTime(t);
            && |s| == 24 && s[8] == 'T' && s[9..] == TimeOfDay(t)
            && Value(s[..4]) == t.year && Value(s[4..6]) == t.month && Value(s[6..8]) == t.day
  {
    Widths();
    TimeReadsBack(t);
    var rest := "T" + TimeOfDay(t);
    var day := Padded(t.day, 2) + rest;
    var month := Padded(t.month, 2) + day;
    var s := DateAndTime(t);
    Field(t.year, 4, month);
    Field(t.month, 2, day);
    Field(t.day, 2, rest);
    Deeper(s, 4, month, 2);
    Deeper(s, 6, day, 2);
    Deeper(s, 8, rest, 1);
    assert s[8] == s[8..][0];
  }

  /** A key is `snap-YYYYMMDDTHHMMSSZ.tar.zst`: each field can be read back where the format puts it. */
  lemma KeyReadsBack(t: Time)
    requires t.Valid()
    ensures var key := Key(t);
            && |key| == 29 && key[..5] == "snap-" && key[13] == 'T' && key[20..] == "Z.tar.zst"
            && Value(key[5..9]) == t.year && Value(key[9..11]) == t.month && Value(key[11..13]) == t.day
            && Value(key[14..16]) == t.hour && Value(key[16..18]) == t.minute && Value(key[18..20]) == t.second
  {
    TimeReadsBack(t);
    DateReadsBack(t);
    var key, date, time := Key(t), DateAndTime(t), TimeOfDay(t);
    assert key[5..] == date;
    Inside(key, 5, date, 9, 24);
    Inside(key, 5, date, 0, 4);
    Inside(key, 5, date, 4, 6);
    Inside(key, 5, date, 6, 8);
    Inside(key, 14, time, 0, 2);
    Inside(key, 14, time, 2, 4);
    Inside(key, 14, time, 4, 6);
    assert key[20..] == key[14..][6..];
  }

  lemma Inside(s: string, i: nat, t: string, j: nat, k: nat)
    requires i <= |s| && s[i..] == t && j <= k <= |t|
    ensures t[j..k] == s[i + j..i + k] && t[j..] == s[i + j..]
  {
  }

  // ---- the newest keys ----

  ghost function Above(s: set<string>, k: string): set<string> {
    set j | j in s && Le(k, j) && j != k
  }

  /** The keys that fewer than `m` keys sort after. */
  ghost function Top(m: nat, s: set<string>): set<string> {
    set k | k in s && |Above(s, k)| < m
  }

  function SetOf(l: seq<string>): set<string> {
    set k | k in l
  }

  ghost predicate Ascending(l: seq<string>) {
    forall i, j | 0 <= i < j < |l| :: Le(l[i], l[j]) && l[i] != l[j]
  }

  lemma SubsetSize(a: set<string>, b: set<string>)
    requires a <= b
    ensures |a| <= |b|
    ensures |a| == |b| ==> a == b
  {
    assert b == a + (b - a);
  }

  lemma {:induction false} AscendingSize(l: seq<string>)
    requires Ascending(l)
    ensures |SetOf(l)| == |l|
  {
    if |l| > 0 {
      AscendingSize(l[1..]);
      assert l == [l[0]] + l[1..];
      assert SetOf(l) == {l[0]} + SetOf(l[1..]);
    }
  }

  lemma AboveAt(l: seq<string>, i: nat)
    requires Ascending(l) && i < |l|
    ensures |Above(SetOf(l), l[i])| == |l| - 1 - i
  {
    forall k | k in Above(SetOf(l), l[i]) ensures k in SetOf(l[i + 1..]) {
      var j :| 0 <= j < |l| && l[j] == k;
      if j < i { LeAntisymmetric(l[i], l[j]); }
      assert l[i + 1..][j - i - 1] == k;
    }
    forall k | k in SetOf(l[i + 1..]) ensures k in Above(SetOf(l), l[i]) {
      var j :| 0 <= j < |l[i + 1..]| && l[i + 1..][j] == k;
      assert l[i + 1 + j] == k;
    }
    assert Above(SetOf(l), l[i]) == SetOf(l[i + 1..]);
    AscendingSize(l[i + 1..]);
  }

  function Newest(m: nat, l: seq<string>): seq<string> {
    if |l| <= m then l else l[|l| - m..]
  }

  lemma NewestAscends(m: nat, l: seq<string>)
    requires Ascending(l)
    ensures Ascending(Newest(m, l)) && |Newest(m, l)| == if |l| <= m then |l| else m
  {
  }

  lemma InTailIffNewest(m: nat, l: seq<string>, k: string)
    requires Ascending(l) && k in l
    ensures k in Newest(m, l) <==> k in Top(m, SetOf(l))
  {
    var i :| 0 <= i < |l| && l[i] == k;
    AboveAt(l, i);
    var n := Newest(m, l);
    var d := |l| - |n|;
    if d <= i { assert n[i - d] == k; }
    if k in n {
      var j :| 0 <= j < |n| && n[j] == k;
      assert l[j + d] == k;
      assert j + d == i;
    }
  }

  /** In an ascending listing the newest keys are its last `m`: what `head -n -m` leaves out. */
  lemma TopIsTail(m: nat, l: seq<string>)
    requires Ascending(l)
    ensures Top(m, SetOf(l)) == SetOf(Newest(m, l))
  {
    assert forall k | k in Newest(m, l) :: k in l;
    forall k | k in l ensures k in Newest(m, l) <==> k in Top(m, SetOf(l)) {
      InTailIffNewest(m, l, k);
    }
  }

  lemma StringsAreOrdered()
    ensures TotalPreorder(Le)
  {
    forall x, y ensures Le(x, y) || Le(y, x) { LeTotal(x, y); }
    forall x, y, z | Le(x, y) && Le(y, z) ensures Le(x, z) { LeTransitive(x, y, z); }
  }

  lemma RepeatCounts(l: seq<string>, i: nat, j: nat)
    requires i < j < |l|
    ensures l[i] == l[j] ==> multiset(l)[l[i]] >= 2
  {
    assert l == l[..i] + [l[i]] + l[i + 1..];
    assert l[j] == l[i + 1..][j - i - 1];
  }

  lemma SortedListing(listing: seq<string>, s: set<string>, sorted: seq<string>)
    requires multiset(listing) == multiset(s) && IsSortOf(sorted, listing, Le)
    ensures SetOf(sorted) == s && Ascending(sorted) && |sorted| == |s|
  {
    forall k ensures k in sorted <==> k in s {
      assert k in sorted <==> k in multiset(sorted);
    }
    forall i, j | 0 <= i < j < |sorted| ensures sorted[i] != sorted[j] {
      assert multiset(s)[sorted[i]] <= 1;
      RepeatCounts(sorted, i, j);
    }
    AscendingSize(sorted);
  }

  lemma {:induction false} ListingExists(s: set<string>) returns (l: seq<string>)
    ensures multiset(l) == multiset(s)
    decreases |s|
  {
    if s == {} {
      l := [];
    } else {
      var k :| k in s;
      var rest := ListingExists(s - {k});
      l := [k] + rest;
      assert s == (s - {k}) + {k};
    }
  }

  lemma TopSize(m: nat, s: set<string>)
    ensures |Top(m, s)| == if |s| <= m then |s| else m
  {
    var l := ListingExists(s);
    StringsAreOrdered();
    var sorted := Sort(l, Le);
    SortedListing(l, s, sorted);
    TopIsTail(m, sorted);
    NewestAscends(m, sorted);
    AscendingSize(Newest(m, sorted));
  }

  // ---- one job ----

  /** MAX_RETAINED, defaulted. */
  function MaxRetained(retentionCount: int): (max: nat)
    ensures max > 0
    ensures retentionCount > 0 ==> max == retentionCount
    ensures retentionCount <= 0 ==> max == 5
  {
    if retentionCount <= 0 then 5 else retentionCount
  }

  /** One run of the job: when, whether the upload went through, which keys the listing misses and which deletions fail. */
  datatype Job = Job(now: Time, uploaded: bool, unlisted: set<string>, stuck: set<string>) {
    predicate Clean() { unlisted == {} && stuck == {} }
  }

  /** What is left under the prefix, of what was there and what was uploaded. */
  ghost function Leaves(max: nat, keys: set<string>, job: Job): set<string> {
    if !job.uploaded then keys
    else
      var all := keys + {Key(job.now)};
      Top(max, all - job.unlisted) + (all * (job.unlisted + job.stuck))
  }

  /** The object store, as far as the job's prefix goes. */
  class Bucket {
    var keys: set<string>

    constructor ()
      ensures keys == {}
    {
      keys := {};
    }

    /** `mc ls`, in whatever order; nothing notices when it stops early. */
    method List(unlisted: set<string>) returns (names: seq<string>)
      ensures multiset(names) == multiset(keys - unlisted)
    {
      names := [];
      var rest := keys - unlisted;
      while rest != {}
        invariant rest <= keys && multiset(names) + multiset(rest) == multiset(keys - unlisted)
        decreases |rest|
      {
        var k :| k in rest;
        names := names + [k];
        rest := rest - {k};
      }
    }

    /** `while read -r old; do mc rm ... || true; done` */
    method Delete(doomed: seq<string>, stuck: set<string>)
      modifies this
      ensures keys == old(keys) - (SetOf(doomed) - stuck)
    {
      for i := 0 to |doomed|
        invariant keys == old(keys) - (SetOf(doomed[..i]) - stuck)
      {
        assert doomed[..i + 1] == doomed[..i] + [doomed[i]];
        if doomed[i] !in stuck {
          keys := keys - {doomed[i]};
        }
      }
      assert doomed[..|doomed|] == doomed;
    }

    /** Upload, list, sort, keep back the last `max` lines, delete the others one by one. */
    method RunJob(max: nat, job: Job)
      modifies this
      ensures keys == Leaves(max, old(keys), job)
    {
      if !job.uploaded { return; }
      keys := keys + {Key(job.now)};
      var names := List(job.unlisted);
      StringsAreOrdered();
      var sorted := Sort(names, Le);
      var lines := if |sorted| <= max then 0 else |sorted| - max;
      Pruned(max, names, keys - job.unlisted, sorted, job.stuck);
      Unlisted(keys, job.unlisted, SetOf(sorted[..lines]) - job.stuck, Top(max, keys - job.unlisted), job.stuck);
      Delete(sorted[..lines], job.stuck);
    }
  }

  lemma Pruned(max: nat, names: seq<string>, all: set<string>, sorted: seq<string>, stuck: set<string>)
    requires multiset(names) == multiset(all) && IsSortOf(sorted, names, Le)
    ensures var lines := if |sorted| <= max then 0 else |sorted| - max;
            && SetOf(sorted[..lines]) <= all
            && all - (SetOf(sorted[..lines]) - stuck) == Top(max, all) + (all * stuck)
  {
    SortedListing(names, all, sorted);
    TopIsTail(max, sorted);
    var lines := if |sorted| <= max then 0 else |sorted| - max;
    assert sorted[lines..] == Newest(max, sorted);
    HeadApart(sorted, lines);
    KeepRest(all, SetOf(sorted[..lines]), SetOf(sorted[lines..]), stuck);
  }

  /** Keys the listing misses are kept. */
  lemma Unlisted(all: set<string>, unlisted: set<string>, gone: set<string>, top: set<string>, stuck: set<string>)
    requires gone <= all - unlisted
    requires (all - unlisted) - gone == top + ((all - unlisted) * stuck)
    ensures all - gone == top + (all * (unlisted + stuck))
  {
    assert all - gone == ((all - unlisted) - gone) + (all * unlisted);
  }

  lemma KeepRest(all: set<string>, head: set<string>, tail: set<string>, stuck: set<string>)
    requires all == head + tail && head !! tail
    ensures all - (head - stuck) == tail + (all * stuck)
  {
  }

  lemma HeadApart(l: seq<string>, n: nat)
    requires Ascending(l) && n <= |l|
    ensures SetOf(l[..n]) !! SetOf(l[n..]) && SetOf(l) == SetOf(l[..n]) + SetOf(l[n..])
  {
  }

  // ---- runs of jobs ----

  ghost function State(max: nat, initial: set<string>, jobs: seq<Job>): set<string> {
    if |jobs| == 0 then initial
    else Leaves(max, State(max, initial, jobs[..|jobs| - 1]), jobs[|jobs| - 1])
  }

  /** Every key the prefix ever held. */
  ghost function Ever(initial: set<string>, jobs: seq<Job>): set<string> {
    initial + set j | j in jobs && j.uploaded :: Key(j.now)
  }

  lemma EverGrows(initial: set<string>, jobs: seq<Job>)
    requires |jobs| > 0
    ensures var n := |jobs| - 1;
            Ever(initial, jobs) == Ever(initial, jobs[..n]) + if jobs[n].uploaded then {Key(jobs[n].now)} else {}
  {
    assert jobs == jobs[..|jobs| - 1] + [jobs[|jobs| - 1]];
  }

  lemma TopShrinks(m: nat, small: set<string>, big: set<string>, k: string)
    requires small <= big && k in small && k in Top(m, big)
    ensures k in Top(m, small)
  {
    SubsetSize(Above(small, k), Above(big, k));
  }

  /**
   * Whatever the listings miss, whatever deletions fail, whatever the clock does: the newest `max` of all
   * keys ever held are there after every job.
   */
  lemma {:induction false} NewestAreNeverLost(max: nat, initial: set<string>, jobs: seq<Job>)
    ensures Top(max, Ever(initial, jobs)) <= State(max, initial, jobs) <= Ever(initial, jobs)
  {
    if |jobs| > 0 {
      var n := |jobs| - 1;
      NewestAreNeverLost(max, initial, jobs[..n]);
      EverGrows(initial, jobs);
      var before, ever := State(max, initial, jobs[..n]), Ever(initial, jobs);
      if jobs[n].uploaded {
        var all := before + {Key(jobs[n].now)};
        forall k | k in Top(max, ever) ensures k in State(max, initial, jobs) {
          if k != Key(jobs[n].now) { TopShrinks(max, Ever(initial, jobs[..n]), ever, k); }
          if k !in jobs[n].unlisted { TopShrinks(max, all - jobs[n].unlisted, ever, k); }
        }
      } else {
        assert Ever(initial, jobs) == Ever(initial, jobs[..n]);
      }
    }
  }

  /** When every listing is complete and every deletion succeeds, from the first upload on exactly the newest `max` of all keys ever held are there. */
  lemma {:induction false} RetentionIsExact(max: nat, initial: set<string>, jobs: seq<Job>)
    requires forall j | j in jobs :: j.Clean()
    ensures State(max, initial, jobs)
            == if |Uploads(jobs)| == 0 then initial else Top(max, Ever(initial, jobs))
    ensures |Uploads(jobs)| == 0 ==> Ever(initial, jobs) == initial
  {
    if |jobs| > 0 {
      var n := |jobs| - 1;
      RetentionIsExact(max, initial, jobs[..n]);
      EverGrows(initial, jobs);
      if jobs[n].uploaded {
        var all := State(max, initial, jobs[..n]) + {Key(jobs[n].now)};
        assert jobs[n].Clean() && all - {} == all;
        PruneOnceOrTwice(max, Ever(initial, jobs[..n]), Key(jobs[n].now));
      } else {
        assert Ever(initial, jobs) == Ever(initial, jobs[..n]);
      }
    }
  }

  /** Pruning before an upload changes nothing about what is left after it. */
  lemma PruneOnceOrTwice(m: nat, h: set<string>, k: string)
    ensures Top(m, Top(m, h) + {k}) == Top(m, h + {k})
  {
    var kept, all := Top(m, h) + {k}, h + {k};
    forall z | z in Top(m, all) ensures z in Top(m, kept) {
      if z != k { TopShrinks(m, h, all, z); }
      TopShrinks(m, kept, all, z);
    }
    TopSize(m, h);
    TopSize(m, kept);
    TopSize(m, all);
    SubsetSize(Top(m, h), kept);
    if |h| <= m {
      SubsetSize(Top(m, h), h);
    } else {
      SubsetSize(h, all);
      SubsetSize(Top(m, all), Top(m, kept));
    }
  }

  /** Everything under the prefix just after the upload of the last job. */
  ghost function Uploaded(max: nat, initial: set<string>, jobs: seq<Job>): set<string>
    requires |jobs| > 0
  {
    State(max, initial, jobs[..|jobs| - 1]) + {Key(jobs[|jobs| - 1].now)}
  }

  /**
   * An old key outlives a job only for a reason: its deletion failed, the listing missed it, or fewer than
   * `max` of the listed keys are newer. So a job leaves no more than `max` keys beyond those that failed it.
   */
  lemma OldKeysGo(max: nat, initial: set<string>, jobs: seq<Job>, k: string)
    requires |jobs| > 0 && jobs[|jobs| - 1].uploaded
    ensures var job, all, left := jobs[|jobs| - 1], Uploaded(max, initial, jobs), State(max, initial, jobs);
            && (k in left <==>
                  k in all && (k in job.stuck || k in job.unlisted
                               || |Above(all - job.unlisted, k)| < max))
            && |left| <= max + |all * (job.unlisted + job.stuck)|
  {
    var n := |jobs| - 1;
    StaysIff(max, State(max, initial, jobs[..n]), jobs[n], k);
  }

  lemma StaysIff(max: nat, keys: set<string>, job: Job, k: string)
    requires job.uploaded
    ensures var all, left := keys + {Key(job.now)}, Leaves(max, keys, job);
            && (k in left <==>
                  k in all && (k in job.stuck || k in job.unlisted
                               || |Above(all - job.unlisted, k)| < max))
            && |left| <= max + |all * (job.unlisted + job.stuck)|
  {
    var all := keys + {Key(job.now)};
    TopSize(max, all - job.unlisted);
    UnionSize(Top(max, all - job.unlisted), all * (job.unlisted + job.stuck));
  }

  lemma UnionSize(a: set<string>, b: set<string>)
    ensures |a + b| <= |a| + |b|
  {
    assert |a + b| == |a| + |b| - |a * b|;
  }

  /**
   * One complete listing makes up for all earlier failures: after that job exactly the newest `max` of all
   * keys ever held are there, and besides them only keys that this job failed to delete.
   */
  lemma CompleteListingCatchesUp(max: nat, initial: set<string>, jobs: seq<Job>)
    requires |jobs| > 0 && jobs[|jobs| - 1].uploaded && jobs[|jobs| - 1].unlisted == {}
    ensures State(max, initial, jobs)
            == Top(max, Ever(initial, jobs)) + (Uploaded(max, initial, jobs) * jobs[|jobs| - 1].stuck)
    ensures jobs[|jobs| - 1].Clean() ==> State(max, initial, jobs) == Top(max, Ever(initial, jobs))
  {
    var n := |jobs| - 1;
    var all, ever := Uploaded(max, initial, jobs), Ever(initial, jobs);
    NewestAreNeverLost(max, initial, jobs[..n]);
    EverGrows(initial, jobs);
    SameTop(max, all, ever, Ever(initial, jobs[..n]), Key(jobs[n].now));
    assert all - {} == all && all * ({} + jobs[n].stuck) == all * jobs[n].stuck;
  }

  /** The newest keys of what is there are the newest ever held. */
  lemma SameTop(m: nat, all: set<string>, ever: set<string>, before: set<string>, k: string)
    requires Top(m, before) + {k} <= all <= ever == before + {k}
    ensures Top(m, all) == Top(m, ever)
  {
    forall z | z in Top(m, ever) ensures z in Top(m, all) {
      if z != k { TopShrinks(m, before, ever, z); }
      TopShrinks(m, all, ever, z);
    }
    TopSize(m, all);
    TopSize(m, ever);
    SubsetSize(all, ever);
    SubsetSize(Top(m, ever), Top(m, all));
  }

  function Uploads(jobs: seq<Job>): seq<string> {
    if |jobs| == 0 then []
    else Uploads(jobs[..|jobs| - 1]) + if jobs[|jobs| - 1].uploaded then [Key(jobs[|jobs| - 1].now)] else []
  }

  ghost predicate ClockAdvances(jobs: seq<Job>) {
    && (forall j | j in jobs :: j.now.Valid())
    && forall i, k | 0 <= i < k < |jobs| :: Earlier(jobs[i].now, jobs[k].now)
  }

  lemma LastKeyIsGreatest(jobs: seq<Job>, k: nat)
    requires ClockAdvances(jobs) && k < |jobs| - 1
    ensures Le(Key(jobs[k].now), Key(jobs[|jobs| - 1].now)) && Key(jobs[k].now) != Key(jobs[|jobs| - 1].now)
  {
    assert jobs[k] in jobs && jobs[|jobs| - 1] in jobs;
    KeyOrder(jobs[k].now, jobs[|jobs| - 1].now);
  }

  lemma {:induction false} UploadsAreKeys(jobs: seq<Job>)
    ensures forall u | u in Uploads(jobs) :: exists k :: 0 <= k < |jobs| && u == Key(jobs[k].now)
  {
    if |jobs| > 0 {
      var n := |jobs| - 1;
      UploadsAreKeys(jobs[..n]);
      forall u | u in Uploads(jobs[..n]) ensures exists k :: 0 <= k < |jobs| && u == Key(jobs[k].now) {
        var k :| 0 <= k < n && u == Key(jobs[..n][k].now);
        assert u == Key(jobs[k].now);
      }
    }
  }

  lemma EarlierUploadIsLess(jobs: seq<Job>, u: string)
    requires ClockAdvances(jobs) && |jobs| > 0 && u in Uploads(jobs[..|jobs| - 1])
    ensures Le(u, Key(jobs[|jobs| - 1].now)) && u != Key(jobs[|jobs| - 1].now)
  {
    var n := |jobs| - 1;
    UploadsAreKeys(jobs[..n]);
    var k :| 0 <= k < n && u == Key(jobs[..n][k].now);
    LastKeyIsGreatest(jobs, k);
  }

  lemma AppendAscends(l: seq<string>, k: string)
    requires Ascending(l) && forall i | 0 <= i < |l| :: Le(l[i], k) && l[i] != k
    ensures Ascending(l + [k])
  {
  }

  lemma {:induction false} UploadsAreEver(jobs: seq<Job>)
    ensures SetOf(Uploads(jobs)) == Ever({}, jobs)
  {
    if |jobs| > 0 {
      UploadsAreEver(jobs[..|jobs| - 1]);
      EverGrows({}, jobs);
    }
  }

  lemma {:induction false} UploadsAscend(jobs: seq<Job>)
    requires ClockAdvances(jobs)
    ensures Ascending(Uploads(jobs))
  {
    if |jobs| > 0 {
      var n := |jobs| - 1;
      var earlier := Uploads(jobs[..n]);
      UploadsAscend(jobs[..n]);
      forall i | 0 <= i < |earlier| ensures Le(earlier[i], Key(jobs[n].now)) && earlier[i] != Key(jobs[n].now) {
        assert earlier[i] in earlier;
        EarlierUploadIsLess(jobs, earlier[i]);
      }
      AppendAscends(earlier, Key(jobs[n].now));
    }
  }

  /**
   * On an empty prefix, with a clock that advances between jobs, complete listings and deletions that
   * succeed, after every run of jobs the prefix holds the last `max` uploads, and among them the latest.
   */
  lemma RetainsTheLatestUploads(max: nat, jobs: seq<Job>)
    requires max > 0
    requires ClockAdvances(jobs) && forall j | j in jobs :: j.Clean()
    ensures State(max, {}, jobs) == SetOf(Newest(max, Uploads(jobs)))
    ensures |jobs| > 0 && jobs[|jobs| - 1].uploaded ==> Key(jobs[|jobs| - 1].now) in State(max, {}, jobs)
  {
    UploadsAscend(jobs);
    UploadsAreEver(jobs);
    TopIsTail(max, Uploads(jobs));
    RetentionIsExact(max, {}, jobs);
    var u := Uploads(jobs);
    if |jobs| > 0 && jobs[|jobs| - 1].uploaded {
      assert jobs[|jobs| - 1] in jobs;
      assert u[|u| - 1] == Key(jobs[|jobs| - 1].now);
      assert Newest(max, u)[|Newest(max, u)| - 1] == u[|u| - 1];
    }
  }
}
