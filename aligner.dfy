/**
 * The series aligner of `get_all`: the candle series is inner-joined with the
 * open-interest series on timestamp, the result with the funding-rate series,
 * and rows with a missing value are dropped. An inner join keeps the order of
 * its left side: for each left row in order, one row for each matching right
 * row in order, so a repeated timestamp yields one row per combination.
 */
module Aligner {
  import opened Wrappers
  import opened Schema

  /** A row of the first join: candle columns and OI columns. */
  datatype CandleOi<V> = CandleOi(timestamp: int, candle: Ohlcv<V>, oi: Ohlc<V>)

  /** A row of the aligned series; the timestamp is its index. */
  datatype AlignedRow<V> = AlignedRow(timestamp: int, candle: Ohlcv<V>, oi: Ohlc<V>, fr: Ohlc<V>)

  /** The rows of the first join a candle and an OI row produce together. */
  ghost predicate JoinsOi<V>(c: Candle<V>, o: LevelRow<V>, x: CandleOi<V>)
  {
    o.timestamp == c.timestamp && x == CandleOi(c.timestamp, c.values, o.values)
  }

  /** The rows of the second join a first-join row and an FR row produce together. */
  ghost predicate JoinsFr<V>(x: CandleOi<V>, f: LevelRow<V>, row: AlignedRow<V>)
  {
    f.timestamp == x.timestamp && row == AlignedRow(x.timestamp, x.candle, x.oi, f.values)
  }

  /** The aligned row a candle, an OI row and an FR row at one timestamp produce. */
  ghost predicate Joins<V>(c: Candle<V>, o: LevelRow<V>, f: LevelRow<V>, row: AlignedRow<V>)
  {
    o.timestamp == c.timestamp && f.timestamp == c.timestamp
    && row == AlignedRow(c.timestamp, c.values, o.values, f.values)
  }

  /** The matches of one candle among the OI rows, in OI order. */
  function MatchOi<V>(c: Candle<V>, ois: seq<LevelRow<V>>): seq<CandleOi<V>>
  {
    if ois == [] then []
    else (if ois[0].timestamp == c.timestamp then [CandleOi(c.timestamp, c.values, ois[0].values)] else [])
         + MatchOi(c, ois[1..])
  }

  /** `merge(ohlcv_data, oi_data, on='timestamp', how='inner')`. */
  function MergeOi<V>(cs: seq<Candle<V>>, ois: seq<LevelRow<V>>): seq<CandleOi<V>>
  {
    if cs == [] then [] else MatchOi(cs[0], ois) + MergeOi(cs[1..], ois)
  }

  /** The matches of one first-join row among the FR rows, in FR order. */
  function MatchFr<V>(x: CandleOi<V>, frs: seq<LevelRow<V>>): seq<AlignedRow<V>>
  {
    if frs == [] then []
    else (if frs[0].timestamp == x.timestamp then [AlignedRow(x.timestamp, x.candle, x.oi, frs[0].values)] else [])
         + MatchFr(x, frs[1..])
  }

  /** `merge(all_data, fr_data, on='timestamp', how='inner')`. */
  function MergeFr<V>(xs: seq<CandleOi<V>>, frs: seq<LevelRow<V>>): seq<AlignedRow<V>>
  {
    if xs == [] then [] else MatchFr(xs[0], frs) + MergeFr(xs[1..], frs)
  }

  predicate OhlcvComplete<V>(v: Ohlcv<V>)
  {
    v.open.Some? && v.high.Some? && v.low.Some? && v.close.Some? && v.volume.Some?
  }

  predicate OhlcComplete<V>(v: Ohlc<V>)
  {
    v.open.Some? && v.high.Some? && v.low.Some? && v.close.Some?
  }

  /** No column of the row is missing. */
  predicate Complete<V>(row: AlignedRow<V>)
  {
    OhlcvComplete(row.candle) && OhlcComplete(row.oi) && OhlcComplete(row.fr)
  }

  /** `dropna()`: the complete rows, in order. */
  function DropNa<V>(rows: seq<AlignedRow<V>>): seq<AlignedRow<V>>
  {
    if rows == [] then [] else (if Complete(rows[0]) then [rows[0]] else []) + DropNa(rows[1..])
  }

  /** The aligned series of `get_all`. */
  function Align<V>(cs: seq<Candle<V>>, ois: seq<LevelRow<V>>, frs: seq<LevelRow<V>>): seq<AlignedRow<V>>
  {
    DropNa(MergeFr(MergeOi(cs, ois), frs))
  }

  lemma {:induction false} MatchOiMembers<V>(c: Candle<V>, ois: seq<LevelRow<V>>, x: CandleOi<V>)
    ensures x in MatchOi(c, ois) <==> exists j :: 0 <= j < |ois| && JoinsOi(c, ois[j], x)
    decreases |ois|
  {
    if ois != [] {
      MatchOiMembers(c, ois[1..], x);
      if x in MatchOi(c, ois[1..]) {
        var j :| 0 <= j < |ois[1..]| && JoinsOi(c, ois[1..][j], x);
        assert JoinsOi(c, ois[j + 1], x);
      }
      if exists j :: 0 <= j < |ois| && JoinsOi(c, ois[j], x) {
        var j :| 0 <= j < |ois| && JoinsOi(c, ois[j], x);
        if j > 0 {
          assert JoinsOi(c, ois[1..][j - 1], x);
        }
      }
    }
  }

  lemma {:induction false} MergeOiMembers<V>(cs: seq<Candle<V>>, ois: seq<LevelRow<V>>, x: CandleOi<V>)
    ensures x in MergeOi(cs, ois) <==> exists i, j :: 0 <= i < |cs| && 0 <= j < |ois| && JoinsOi(cs[i], ois[j], x)
    decreases |cs|
  {
    if cs != [] {
      MatchOiMembers(cs[0], ois, x);
      MergeOiMembers(cs[1..], ois, x);
      if x in MergeOi(cs[1..], ois) {
        var i, j :| 0 <= i < |cs[1..]| && 0 <= j < |ois| && JoinsOi(cs[1..][i], ois[j], x);
        assert JoinsOi(cs[i + 1], ois[j], x);
      }
      if exists i, j :: 0 <= i < |cs| && 0 <= j < |ois| && JoinsOi(cs[i], ois[j], x) {
        var i, j :| 0 <= i < |cs| && 0 <= j < |ois| && JoinsOi(cs[i], ois[j], x);
        if i > 0 {
          assert JoinsOi(cs[1..][i - 1], ois[j], x);
        }
      }
    }
  }

  lemma {:induction false} MatchFrMembers<V>(x: CandleOi<V>, frs: seq<LevelRow<V>>, row: AlignedRow<V>)
    ensures row in MatchFr(x, frs) <==> exists k :: 0 <= k < |frs| && JoinsFr(x, frs[k], row)
    decreases |frs|
  {
    if frs != [] {
      MatchFrMembers(x, frs[1..], row);
      if row in MatchFr(x, frs[1..]) {
        var k :| 0 <= k < |frs[1..]| && JoinsFr(x, frs[1..][k], row);
        assert JoinsFr(x, frs[k + 1], row);
      }
      if exists k :: 0 <= k < |frs| && JoinsFr(x, frs[k], row) {
        var k :| 0 <= k < |frs| && JoinsFr(x, frs[k], row);
        if k > 0 {
          assert JoinsFr(x, frs[1..][k - 1], row);
        }
      }
    }
  }

  lemma {:induction false} MergeFrMembers<V>(xs: seq<CandleOi<V>>, frs: seq<LevelRow<V>>, row: AlignedRow<V>)
    ensures row in MergeFr(xs, frs) <==> exists p, k :: 0 <= p < |xs| && 0 <= k < |frs| && JoinsFr(xs[p], frs[k], row)
    decreases |xs|
  {
    if xs != [] {
      MatchFrMembers(xs[0], frs, row);
      MergeFrMembers(xs[1..], frs, row);
      if row in MergeFr(xs[1..], frs) {
        var p, k :| 0 <= p < |xs[1..]| && 0 <= k < |frs| && JoinsFr(xs[1..][p], frs[k], row);
        assert JoinsFr(xs[p + 1], frs[k], row);
      }
      if exists p, k :: 0 <= p < |xs| && 0 <= k < |frs| && JoinsFr(xs[p], frs[k], row) {
        var p, k :| 0 <= p < |xs| && 0 <= k < |frs| && JoinsFr(xs[p], frs[k], row);
        if p > 0 {
          assert JoinsFr(xs[1..][p - 1], frs[k], row);
        }
      }
    }
  }

  lemma {:induction false} DropNaMembers<V>(rows: seq<AlignedRow<V>>, row: AlignedRow<V>)
    ensures row in DropNa(rows) <==> row in rows && Complete(row)
    decreases |rows|
  {
    if rows != [] {
      DropNaMembers(rows[1..], row);
      assert rows == [rows[0]] + rows[1..];
    }
  }

  /**
   * Join membership: a row is aligned exactly when some candle, some OI row
   * and some FR row share its timestamp, it combines their values, and no
   * value of it is missing.
   */
  lemma AlignMembers<V>(cs: seq<Candle<V>>, ois: seq<LevelRow<V>>, frs: seq<LevelRow<V>>, row: AlignedRow<V>)
    ensures row in Align(cs, ois, frs) <==>
      Complete(row) && exists i, j, k :: 0 <= i < |cs| && 0 <= j < |ois| && 0 <= k < |frs| && Joins(cs[i], ois[j], frs[k], row)
  {
    var xs := MergeOi(cs, ois);
    DropNaMembers(MergeFr(xs, frs), row);
    MergeFrMembers(xs, frs, row);
    if row in MergeFr(xs, frs) {
      var p, k :| 0 <= p < |xs| && 0 <= k < |frs| && JoinsFr(xs[p], frs[k], row);
      MergeOiMembers(cs, ois, xs[p]);
      var i, j :| 0 <= i < |cs| && 0 <= j < |ois| && JoinsOi(cs[i], ois[j], xs[p]);
      assert Joins(cs[i], ois[j], frs[k], row);
    }
    if exists i, j, k :: 0 <= i < |cs| && 0 <= j < |ois| && 0 <= k < |frs| && Joins(cs[i], ois[j], frs[k], row) {
      var i, j, k :| 0 <= i < |cs| && 0 <= j < |ois| && 0 <= k < |frs| && Joins(cs[i], ois[j], frs[k], row);
      var x := CandleOi(cs[i].timestamp, cs[i].values, ois[j].values);
      MergeOiMembers(cs, ois, x);
      assert JoinsOi(cs[i], ois[j], x);
      var p :| 0 <= p < |xs| && xs[p] == x;
      assert JoinsFr(xs[p], frs[k], row);
    }
  }

  /** A timestamp is in the aligned series exactly when all three series have it on one complete row. */
  lemma AlignedTimestamps<V>(cs: seq<Candle<V>>, ois: seq<LevelRow<V>>, frs: seq<LevelRow<V>>, t: int)
    ensures (exists p :: 0 <= p < |Align(cs, ois, frs)| && Align(cs, ois, frs)[p].timestamp == t) <==>
      exists i, j, k :: 0 <= i < |cs| && 0 <= j < |ois| && 0 <= k < |frs|
        && cs[i].timestamp == t && ois[j].timestamp == t && frs[k].timestamp == t
        && Complete(AlignedRow(t, cs[i].values, ois[j].values, frs[k].values))
  {
    var rows := Align(cs, ois, frs);
    if exists p :: 0 <= p < |rows| && rows[p].timestamp == t {
      var p :| 0 <= p < |rows| && rows[p].timestamp == t;
      AlignMembers(cs, ois, frs, rows[p]);
      var i, j, k :| 0 <= i < |cs| && 0 <= j < |ois| && 0 <= k < |frs| && Joins(cs[i], ois[j], frs[k], rows[p]);
      assert Complete(AlignedRow(t, cs[i].values, ois[j].values, frs[k].values));
    }
    if exists i, j, k :: 0 <= i < |cs| && 0 <= j < |ois| && 0 <= k < |frs|
        && cs[i].timestamp == t && ois[j].timestamp == t && frs[k].timestamp == t
        && Complete(AlignedRow(t, cs[i].values, ois[j].values, frs[k].values)) {
      var i, j, k :| 0 <= i < |cs| && 0 <= j < |ois| && 0 <= k < |frs|
        && cs[i].timestamp == t && ois[j].timestamp == t && frs[k].timestamp == t
        && Complete(AlignedRow(t, cs[i].values, ois[j].values, frs[k].values));
      var row := AlignedRow(t, cs[i].values, ois[j].values, frs[k].values);
      assert Joins(cs[i], ois[j], frs[k], row);
      AlignMembers(cs, ois, frs, row);
      var p :| 0 <= p < |rows| && rows[p] == row;
    }
  }

  /** After `dropna` every aligned row is complete and carries the timestamp of some candle. */
  lemma AlignedRowsFromCandles<V>(cs: seq<Candle<V>>, ois: seq<LevelRow<V>>, frs: seq<LevelRow<V>>)
    ensures var rows := Align(cs, ois, frs);
      forall p :: 0 <= p < |rows| ==> Complete(rows[p]) && exists i :: 0 <= i < |cs| && cs[i].timestamp == rows[p].timestamp
  {
    var rows := Align(cs, ois, frs);
    forall p | 0 <= p < |rows|
      ensures Complete(rows[p]) && exists i :: 0 <= i < |cs| && cs[i].timestamp == rows[p].timestamp
    {
      AlignMembers(cs, ois, frs, rows[p]);
      var i, j, k :| 0 <= i < |cs| && 0 <= j < |ois| && 0 <= k < |frs| && Joins(cs[i], ois[j], frs[k], rows[p]);
    }
  }

  lemma {:induction false} MergeOiConcat<V>(a: seq<Candle<V>>, b: seq<Candle<V>>, ois: seq<LevelRow<V>>)
    ensures MergeOi(a + b, ois) == MergeOi(a, ois) + MergeOi(b, ois)
    decreases |a|
  {
    if a == [] {
      assert a + b == b;
    } else {
      assert (a + b)[0] == a[0] && (a + b)[1..] == a[1..] + b;
      MergeOiConcat(a[1..], b, ois);
    }
  }

  lemma {:induction false} MergeFrConcat<V>(a: seq<CandleOi<V>>, b: seq<CandleOi<V>>, frs: seq<LevelRow<V>>)
    ensures MergeFr(a + b, frs) == MergeFr(a, frs) + MergeFr(b, frs)
    decreases |a|
  {
    if a == [] {
      assert a + b == b;
    } else {
      assert (a + b)[0] == a[0] && (a + b)[1..] == a[1..] + b;
      MergeFrConcat(a[1..], b, frs);
    }
  }

  lemma {:induction false} DropNaConcat<V>(a: seq<AlignedRow<V>>, b: seq<AlignedRow<V>>)
    ensures DropNa(a + b) == DropNa(a) + DropNa(b)
    decreases |a|
  {
    if a == [] {
      assert a + b == b;
    } else {
      assert (a + b)[0] == a[0] && (a + b)[1..] == a[1..] + b;
      DropNaConcat(a[1..], b);
    }
  }

  /**
   * Candle order: aligning two runs of candles one after the other gives the
   * rows of the first run followed by the rows of the second.
   */
  lemma AlignFollowsCandleOrder<V>(a: seq<Candle<V>>, b: seq<Candle<V>>, ois: seq<LevelRow<V>>, frs: seq<LevelRow<V>>)
    ensures Align(a + b, ois, frs) == Align(a, ois, frs) + Align(b, ois, frs)
  {
    MergeOiConcat(a, b, ois);
    MergeFrConcat(MergeOi(a, ois), MergeOi(b, ois), frs);
    DropNaConcat(MergeFr(MergeOi(a, ois), frs), MergeFr(MergeOi(b, ois), frs));
  }

  /** Splitting the OI rows splits one candle's matches the same way, so OI order is kept. */
  lemma {:induction false} MatchOiConcat<V>(c: Candle<V>, a: seq<LevelRow<V>>, b: seq<LevelRow<V>>)
    ensures MatchOi(c, a + b) == MatchOi(c, a) + MatchOi(c, b)
    decreases |a|
  {
    if a == [] {
      assert a + b == b;
    } else {
      assert (a + b)[0] == a[0] && (a + b)[1..] == a[1..] + b;
      MatchOiConcat(c, a[1..], b);
    }
  }

  /** Splitting the FR rows splits one joined row's matches the same way, so FR order is kept. */
  lemma {:induction false} MatchFrConcat<V>(x: CandleOi<V>, a: seq<LevelRow<V>>, b: seq<LevelRow<V>>)
    ensures MatchFr(x, a + b) == MatchFr(x, a) + MatchFr(x, b)
    decreases |a|
  {
    if a == [] {
      assert a + b == b;
    } else {
      assert (a + b)[0] == a[0] && (a + b)[1..] == a[1..] + b;
      MatchFrConcat(x, a[1..], b);
    }
  }

  /** How many rows of a series carry timestamp t. */
  function CountAt<V>(rows: seq<LevelRow<V>>, t: int): nat
  {
    if rows == [] then 0 else (if rows[0].timestamp == t then 1 else 0) + CountAt(rows[1..], t)
  }

  /** The number of (candle, OI row, FR row) combinations that share a timestamp. */
  function Combinations<V>(cs: seq<Candle<V>>, ois: seq<LevelRow<V>>, frs: seq<LevelRow<V>>): nat
  {
    if cs == [] then 0
    else CountAt(ois, cs[0].timestamp) * CountAt(frs, cs[0].timestamp) + Combinations(cs[1..], ois, frs)
  }

  /** A candle matches once per OI row at its timestamp, and every match keeps that timestamp. */
  lemma {:induction false} MatchOiCount<V>(c: Candle<V>, ois: seq<LevelRow<V>>)
    ensures |MatchOi(c, ois)| == CountAt(ois, c.timestamp)
    ensures forall p :: 0 <= p < |MatchOi(c, ois)| ==> MatchOi(c, ois)[p].timestamp == c.timestamp
  {
    if ois != [] {
      MatchOiCount(c, ois[1..]);
    }
  }

  /** A joined row matches once per FR row at its timestamp. */
  lemma {:induction false} MatchFrCount<V>(x: CandleOi<V>, frs: seq<LevelRow<V>>)
    ensures |MatchFr(x, frs)| == CountAt(frs, x.timestamp)
  {
    if frs != [] {
      MatchFrCount(x, frs[1..]);
    }
  }

  lemma {:induction false} MergeFrCountAt<V>(xs: seq<CandleOi<V>>, frs: seq<LevelRow<V>>, t: int)
    requires forall p :: 0 <= p < |xs| ==> xs[p].timestamp == t
    ensures |MergeFr(xs, frs)| == |xs| * CountAt(frs, t)
  {
    if xs != [] {
      MatchFrCount(xs[0], frs);
      MergeFrCountAt(xs[1..], frs, t);
      assert |xs| * CountAt(frs, t) == CountAt(frs, t) + (|xs| - 1) * CountAt(frs, t);
    }
  }

  /**
   * Before `dropna`, the two joins give exactly one row per combination of a
   * candle, an OI row and an FR row at one timestamp: duplicates multiply.
   */
  lemma {:induction false} JoinCount<V>(cs: seq<Candle<V>>, ois: seq<LevelRow<V>>, frs: seq<LevelRow<V>>)
    ensures |MergeFr(MergeOi(cs, ois), frs)| == Combinations(cs, ois, frs)
  {
    if cs != [] {
      var t := cs[0].timestamp;
      MatchOiCount(cs[0], ois);
      MergeFrConcat(MatchOi(cs[0], ois), MergeOi(cs[1..], ois), frs);
      MergeFrCountAt(MatchOi(cs[0], ois), frs, t);
      JoinCount(cs[1..], ois, frs);
    }
  }

  function Full(x: int): Ohlcv<int> { Ohlcv(Some(x), Some(x), Some(x), Some(x), Some(x)) }
  function Level(x: int): Ohlc<int> { Ohlc(Some(x), Some(x), Some(x), Some(x)) }

  /** Candles at T1, T2, T3, OI at T1, T2 and FR at T1, T3 align to T1 alone. */
  lemma ThreeSeriesExample()
    ensures Align([Candle(1, Full(10)), Candle(2, Full(20)), Candle(3, Full(30))],
                  [LevelRow(1, Level(11)), LevelRow(2, Level(21))],
                  [LevelRow(1, Level(12)), LevelRow(3, Level(32))])
         == [AlignedRow(1, Full(10), Level(11), Level(12))]
  {
    var cs := [Candle(1, Full(10)), Candle(2, Full(20)), Candle(3, Full(30))];
    var ois := [LevelRow(1, Level(11)), LevelRow(2, Level(21))];
    var frs := [LevelRow(1, Level(12)), LevelRow(3, Level(32))];
    var x1, x2 := CandleOi(1, Full(10), Level(11)), CandleOi(2, Full(20), Level(21));
    assert MergeOi(cs, ois) == [x1, x2];
    assert frs[1..] == [frs[1]] && frs[1..][1..] == [];
    assert MatchFr(x1, frs) == [AlignedRow(1, Full(10), Level(11), Level(12))];
    assert MatchFr(x2, frs) == [];
    assert [x1, x2][1..] == [x2] && [x2][1..] == [];
    assert MergeFr([x2], frs) == [];
    assert MergeFr([x1, x2], frs) == [AlignedRow(1, Full(10), Level(11), Level(12))];
  }

  /** A timestamp twice in the OI series gives two rows, in OI order. */
  lemma DuplicateOiExample()
    ensures Align([Candle(1, Full(10))], [LevelRow(1, Level(11)), LevelRow(1, Level(13))], [LevelRow(1, Level(12))])
         == [AlignedRow(1, Full(10), Level(11), Level(12)), AlignedRow(1, Full(10), Level(13), Level(12))]
  {
    var cs := [Candle(1, Full(10))];
    var ois := [LevelRow(1, Level(11)), LevelRow(1, Level(13))];
    var frs := [LevelRow(1, Level(12))];
    var x1, x2 := CandleOi(1, Full(10), Level(11)), CandleOi(1, Full(10), Level(13));
    assert ois[1..] == [ois[1]] && [ois[1]][1..] == [];
    assert MatchOi(cs[0], ois) == [x1, x2];
    assert cs[1..] == [];
    assert MergeOi(cs, ois) == [x1, x2];
    assert [x1, x2][1..] == [x2] && [x2][1..] == [];
    var row1, row2 := AlignedRow(1, Full(10), Level(11), Level(12)), AlignedRow(1, Full(10), Level(13), Level(12));
    assert MergeFr([x2], frs) == [row2];
    assert MergeFr([x1, x2], frs) == [row1, row2];
    assert [row1, row2][1..] == [row2] && [row2][1..] == [];
    assert DropNa([row2]) == [row2];
  }

  /** A timestamp twice in the candles and once elsewhere gives two rows; a missing value drops its row. */
  lemma DuplicateExample()
    ensures Align([Candle(1, Full(10)), Candle(1, Full(15))], [LevelRow(1, Level(11))], [LevelRow(1, Level(12))])
         == [AlignedRow(1, Full(10), Level(11), Level(12)), AlignedRow(1, Full(15), Level(11), Level(12))]
    ensures Align([Candle(1, Ohlcv(None, Some(1), Some(1), Some(1), Some(1)))], [LevelRow(1, Level(11))], [LevelRow(1, Level(12))])
         == []
  {
    var cs := [Candle(1, Full(10)), Candle(1, Full(15))];
    var ois := [LevelRow(1, Level(11))];
    var frs := [LevelRow(1, Level(12))];
    var x1, x2 := CandleOi(1, Full(10), Level(11)), CandleOi(1, Full(15), Level(11));
    assert cs[1..] == [cs[1]] && [cs[1]][1..] == [];
    assert MergeOi(cs, ois) == [x1, x2];
    assert [x1, x2][1..] == [x2] && [x2][1..] == [];
    var row1, row2 := AlignedRow(1, Full(10), Level(11), Level(12)), AlignedRow(1, Full(15), Level(11), Level(12));
    assert MergeFr([x2], frs) == [row2];
    assert MergeFr([x1, x2], frs) == [row1, row2];
    assert [row1, row2][1..] == [row2] && [row2][1..] == [];
    assert DropNa([row2]) == [row2];
  }
}
