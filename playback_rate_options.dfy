/**
 * The playback-rate menu (src/config/PlaybackRateOptions.js): a literal table
 * of labelled rates, sorted once by value so that its first and last entries
 * bound the rate controls.
 */
module PlaybackRateOptions {

  /** A menu entry: its `label` text (a reserved word in Dafny, hence `caption`) and its rate. */
  datatype RateOption = RateOption(caption: string, value: real)

  /** The table as written, before the sort. */
  function Table(): (t: seq<RateOption>)
    ensures |t| == 7
  {
    [ RateOption("1/8", 0.125), RateOption("1/4", 0.25), RateOption("1/2", 0.5),
      RateOption("1", 1.0), RateOption("2", 2.0), RateOption("4", 4.0), RateOption("8", 8.0) ]
  }

  /** The sort comparator: 0 for equal values, 1 when `a` is faster, -1 otherwise. */
  function Compare(a: RateOption, b: RateOption): (r: int)
    ensures r == 0 <==> a.value == b.value
    ensures r == 1 <==> a.value > b.value
    ensures r == -1 <==> a.value < b.value
  {
    if a.value == b.value then 0 else if a.value > b.value then 1 else -1
  }

  /** The comparator is antisymmetric and transitive, so it is a consistent order for the sort. */
  lemma CompareConsistent(a: RateOption, b: RateOption, c: RateOption)
    ensures Compare(a, b) == -Compare(b, a)
    ensures Compare(a, b) <= 0 && Compare(b, c) <= 0 ==> Compare(a, c) <= 0
  {
  }

  /** Ordered by the comparator: no entry compares above a later one. */
  predicate Ascending(s: seq<RateOption>) {
    forall i, j | 0 <= i < j < |s| :: s[i].value <= s[j].value
  }

  /** Strictly ordered: every entry compares below every later one. */
  predicate StrictlyAscending(s: seq<RateOption>) {
    forall i, j | 0 <= i < j < |s| :: s[i].value < s[j].value
  }

  /** An entry no greater than the head of an ordered sequence can go in front of it. */
  lemma AscendingCons(h: RateOption, s: seq<RateOption>)
    requires Ascending(s) && (s != [] ==> h.value <= s[0].value)
    ensures Ascending([h] + s)
  {
    var r := [h] + s;
    forall i, j | 0 <= i < j < |r|
      ensures r[i].value <= r[j].value
    {
      if i == 0 && j > 1 {
        assert r[j] == s[j - 1];
        assert s[0].value <= s[j - 1].value;
      }
    }
  }

  /** The tail of an ordered sequence is ordered. */
  lemma AscendingTail(s: seq<RateOption>)
    requires Ascending(s) && s != []
    ensures Ascending(s[1..])
  {
    var t := s[1..];
    forall i, j | 0 <= i < j < |t|
      ensures t[i].value <= t[j].value
    {
      assert t[i] == s[i + 1] && t[j] == s[j + 1];
    }
  }

  /** Places `x` before the first entry it does not compare above, keeping equal entries in order. */
  function Insert(x: RateOption, s: seq<RateOption>): (r: seq<RateOption>)
    requires Ascending(s)
    ensures |r| == |s| + 1 && (r[0] == x || (s != [] && r[0] == s[0]))
    ensures Ascending(r)
    ensures multiset(r) == multiset(s) + multiset{x}
    decreases |s|
  {
    if s == [] then [x]
    else if Compare(x, s[0]) <= 0 then
      AscendingCons(x, s);
      [x] + s
    else
      AscendingTail(s);
      var rest := Insert(x, s[1..]);
      AscendingCons(s[0], rest);
      assert multiset(s) == multiset{s[0]} + multiset(s[1..]) by {
        assert s == [s[0]] + s[1..];
      }
      assert multiset([s[0]] + rest) == multiset{s[0]} + multiset(rest);
      [s[0]] + rest
  }

  /**
   * `Array.prototype.sort` with the comparator, as a stable insertion sort:
   * an ordered permutation of its input.
   */
  function Sort(s: seq<RateOption>): (r: seq<RateOption>)
    ensures Ascending(r)
    ensures multiset(r) == multiset(s)
    decreases |s|
  {
    if s == [] then []
    else
      assert multiset(s) == multiset{s[0]} + multiset(s[1..]) by {
        assert s == [s[0]] + s[1..];
      }
      Insert(s[0], Sort(s[1..]))
  }

  /** An input that is already in order comes out of the sort unchanged. */
  lemma {:induction false} SortOrdered(s: seq<RateOption>)
    requires Ascending(s)
    ensures Sort(s) == s
    decreases |s|
  {
    if s != [] {
      var t := s[1..];
      AscendingTail(s);
      SortOrdered(t);
      assert Sort(s) == Insert(s[0], t);
      assert t == [] || Compare(s[0], t[0]) <= 0;
      assert [s[0]] + t == s;
    }
  }

  /** Each entry below the next makes the whole sequence strictly ordered. */
  lemma {:induction false} ChainAscending(s: seq<RateOption>)
    requires forall k | 1 <= k < |s| :: s[k - 1].value < s[k].value
    ensures StrictlyAscending(s)
    decreases |s|
  {
    if |s| > 1 {
      var init := s[..|s| - 1];
      ChainAscending(init);
      forall i, j | 0 <= i < j < |s|
        ensures s[i].value < s[j].value
      {
        if j < |s| - 1 {
          assert init[i] == s[i] && init[j] == s[j];
        } else if i < j - 1 {
          assert init[i] == s[i] && init[j - 1] == s[j - 1];
        }
      }
    }
  }

  /** The written table is in strictly increasing order. */
  lemma TableStrictlyAscending()
    ensures StrictlyAscending(Table())
  {
    var t := Table();
    assert t[0].value < t[1].value < t[2].value < t[3].value;
    assert t[3].value < t[4].value < t[5].value < t[6].value;
    ChainAscending(t);
  }

  /**
   * The exported menu. The module sorts the table once when it loads; the
   * table is already in order, so its value is the table itself, as
   * `OptionsAreSorted` shows.
   */
  function Options(): (r: seq<RateOption>)
    ensures |r| == 7 && StrictlyAscending(r)
  {
    TableStrictlyAscending();
    Table()
  }

  /** Sorting the written table gives exactly the exported menu. */
  lemma OptionsAreSorted()
    ensures Sort(Table()) == Options()
  {
    TableStrictlyAscending();
    SortOrdered(Table());
  }

  /** Every rate of the menu is double the one before it, from 1/8 up to 8, each under its own label. */
  lemma OptionsDouble()
    ensures Options()[0] == RateOption("1/8", 0.125)
    ensures Options()[6] == RateOption("8", 8.0)
    ensures forall i | 1 <= i < |Options()| :: Options()[i].value == 2.0 * Options()[i - 1].value
  {
    var t := Options();
    assert t[1].value == 2.0 * t[0].value && t[2].value == 2.0 * t[1].value;
    assert t[3].value == 2.0 * t[2].value && t[4].value == 2.0 * t[3].value;
    assert t[5].value == 2.0 * t[4].value && t[6].value == 2.0 * t[5].value;
  }

  /** The first rate of the menu is the slowest and the last the fastest: they bound the rate controls. */
  lemma OptionsBounds()
    ensures forall o | o in Options() :: Options()[0].value <= o.value <= Options()[6].value
  {
    var t := Options();
    forall o | o in t
      ensures t[0].value <= o.value <= t[6].value
    {
      var k :| 0 <= k < |t| && t[k] == o;
      assert k == 0 || t[0].value < t[k].value;
      assert k == 6 || t[k].value < t[6].value;
    }
  }

  /** The slowest rate, `options[0].value`. */
  function MinRate(): (r: real)
    ensures r == 0.125
  {
    Options()[0].value
  }

  /** The fastest rate, `options[options.length - 1].value`. */
  function MaxRate(): (r: real)
    ensures r == 8.0
  {
    Options()[|Options()| - 1].value
  }
}
