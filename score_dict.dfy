/** The positional aggregator of the performance codec (`_build_score_dict`):
    it groups a flat, row-aligned note table by onset and builds one 9-tuple
    per unique score position, keyed by that position. */
module ScoreDict {
  import opened Stats

  /** The flat per-note table: nine row-aligned columns, in the column order
      of the prediction file. */
  datatype NoteTable = NoteTable(
    pitch: seq<int>,
    onset: seq<real>,
    duration: seq<real>,
    velTrend: seq<real>,
    velDev: seq<real>,
    logBpr: seq<real>,
    timing: seq<real>,
    logArt: seq<real>,
    melody: seq<real>)
  {
    /** All columns have one entry per note. */
    predicate WellFormed() {
      && |pitch| == |onset|
      && |duration| == |onset|
      && |velTrend| == |onset|
      && |velDev| == |onset|
      && |logBpr| == |onset|
      && |timing| == |onset|
      && |logArt| == |onset|
      && |melody| == |onset|
    }
  }

  /** The tuple stored at one score position: per-note sub-sequences for the
      notes starting there, the IOI, and the group means of the two
      position-level parameters. */
  datatype Position = Position(
    pitches: seq<int>,
    ioi: real,
    durations: seq<real>,
    velTrend: real,
    velDev: seq<real>,
    logBpr: real,
    timing: seq<real>,
    logArt: seq<real>,
    melody: seq<real>)

  predicate StrictlyIncreasing(u: seq<real>) {
    forall i, j :: 0 <= i < j < |u| ==> u[i] < u[j]
  }

  /** Note indices listed in original note order, each once. */
  predicate InNoteOrder(ix: seq<nat>) {
    forall i, j :: 0 <= i < j < |ix| ==> ix[i] < ix[j]
  }

  // ---------------------------------------------------------------------
  // The whole-array steps: unique onsets, index groups, IOIs

  /** Adds `x` to a strictly increasing sequence, keeping it strictly increasing. */
  function Insert(u: seq<real>, x: real): (r: seq<real>)
    requires StrictlyIncreasing(u)
    ensures StrictlyIncreasing(r)
    ensures forall y :: y in r <==> y in u || y == x
  {
    if |u| == 0 then [x]
    else if x < u[0] then [x] + u
    else if x == u[0] then u
    else
      var r := Insert(u[1..], x);
      assert forall j :: 0 <= j < |r| ==> u[0] < r[j] by {
        forall j | 0 <= j < |r| ensures u[0] < r[j] {
          assert r[j] in r;
          if r[j] != x {
            var i :| 0 <= i < |u[1..]| && u[1..][i] == r[j];
            assert u[0] < u[i + 1];
          }
        }
      }
      [u[0]] + r
  }

  /** `np.unique(onsets)` followed by `sort()`: the distinct onsets, ascending. */
  function SortedUnique(s: seq<real>): (r: seq<real>)
    ensures StrictlyIncreasing(r)
    ensures forall y :: y in r <==> y in s
  {
    if |s| == 0 then []
    else
      var n := |s| - 1;
      assert s == s[..n] + [s[n]];
      Insert(SortedUnique(s[..n]), s[n])
  }

  /** `np.where(onsets == u)[0]`: the indices of the notes whose onset is
      exactly `u`, in note order. */
  function IndicesOf(s: seq<real>, u: real): (ix: seq<nat>)
    ensures InNoteOrder(ix)
    ensures forall j :: 0 <= j < |ix| ==> ix[j] < |s| && s[ix[j]] == u
  {
    if |s| == 0 then []
    else
      var n := |s| - 1;
      IndicesOf(s[..n], u) + (if s[n] == u then [n] else [])
  }

  /** Conversely, every note whose onset is `u` is in the group of `u`. */
  lemma {:induction false} IndicesComplete(s: seq<real>, u: real, i: nat)
    requires i < |s| && s[i] == u
    ensures i in IndicesOf(s, u)
  {
    var n := |s| - 1;
    if i < n {
      IndicesComplete(s[..n], u, i);
    }
  }

  /** Fancy indexing `xs[ix]`. */
  function Pick<T>(xs: seq<T>, ix: seq<nat>): seq<T>
    requires forall j :: 0 <= j < |ix| ==> ix[j] < |xs|
  {
    seq(|ix|, j requires 0 <= j < |ix| => xs[ix[j]])
  }

  /** `np.r_[0, np.diff(unique_onsets)]`: 0 for the first position, then the
      gap to the previous unique onset, which is positive when the onsets
      are strictly increasing. */
  function Iois(u: seq<real>): (r: seq<real>)
    ensures |r| == if |u| == 0 then 1 else |u|
    ensures r[0] == 0.0
    ensures forall k :: 0 < k < |u| ==> r[k] == u[k] - u[k - 1]
    ensures StrictlyIncreasing(u) ==> forall k :: 0 < k < |u| ==> r[k] > 0.0
  {
    [0.0] + seq(if |u| == 0 then 0 else |u| - 1, k requires 0 <= k < |u| - 1 => u[k + 1] - u[k])
  }

  // ---------------------------------------------------------------------
  // The score dictionary

  /** A position `u` that some note starts at has a non-empty group. */
  lemma {:induction false} GroupNonEmpty(s: seq<real>, u: real)
    requires u in s
    ensures |IndicesOf(s, u)| > 0
  {
    var i :| 0 <= i < |s| && s[i] == u;
    IndicesComplete(s, u, i);
  }

  /** The 9-tuple of the notes `ix` (a non-empty group) at a position with
      inter-onset interval `ioi`. */
  function Tuple(t: NoteTable, ix: seq<nat>, ioi: real): Position
    requires t.WellFormed() && |ix| > 0
    requires forall j :: 0 <= j < |ix| ==> ix[j] < |t.onset|
  {
    Position(Pick(t.pitch, ix), ioi, Pick(t.duration, ix), Mean(Pick(t.velTrend, ix)),
             Pick(t.velDev, ix), Mean(Pick(t.logBpr, ix)), Pick(t.timing, ix),
             Pick(t.logArt, ix), Pick(t.melody, ix))
  }

  /** The tuple the loop stores under onset `u` with inter-onset interval `ioi`. */
  function Entry(t: NoteTable, u: real, ioi: real): Position
    requires t.WellFormed() && u in t.onset
  {
    GroupNonEmpty(t.onset, u);
    Tuple(t, IndicesOf(t.onset, u), ioi)
  }

  /** The map a loop builds by storing `vals[k]` under `keys[k]` for each
      `k < n`, in that order. */
  function Zip<V>(keys: seq<real>, vals: seq<V>, n: nat): map<real, V>
    requires n <= |keys| && n <= |vals|
  {
    if n == 0 then map[] else Zip(keys, vals, n - 1)[keys[n - 1] := vals[n - 1]]
  }

  /** The tuples of the unique onsets of `t`, in ascending onset order. */
  function Entries(t: NoteTable): (r: seq<Position>)
    requires t.WellFormed()
    ensures |r| == |SortedUnique(t.onset)|
  {
    var us := SortedUnique(t.onset);
    var iois := Iois(us);
    seq(|us|, k requires 0 <= k < |us| => Entry(t, us[k], iois[k]))
  }

  lemma EntryOf(t: NoteTable, k: nat)
    requires t.WellFormed() && k < |SortedUnique(t.onset)|
    ensures var us := SortedUnique(t.onset);
      us[k] in t.onset && Entries(t)[k] == Entry(t, us[k], Iois(us)[k])
  {
  }

  /** One iteration of the loop: storing the `k`-th tuple extends the map. */
  lemma StoreStep(t: NoteTable, k: nat)
    requires t.WellFormed() && k < |SortedUnique(t.onset)|
    ensures var us := SortedUnique(t.onset);
      var ix := IndicesOf(t.onset, us[k]);
      && |ix| > 0
      && Zip(us, Entries(t), k + 1) == Zip(us, Entries(t), k)[us[k] := Tuple(t, ix, Iois(us)[k])]
  {
    var us := SortedUnique(t.onset);
    EntryOf(t, k);
    GroupNonEmpty(t.onset, us[k]);
  }

  /** The score dictionary `_build_score_dict` returns for table `t`. */
  function ScoreDictOf(t: NoteTable): map<real, Position>
    requires t.WellFormed()
  {
    var us := SortedUnique(t.onset);
    Zip(us, Entries(t), |us|)
  }

  /** `_build_score_dict`: one loop over the zipped unique onsets, IOIs and
      index groups, storing each position's tuple under its onset. */
  method BuildScoreDict(t: NoteTable) returns (scoreDict: map<real, Position>)
    requires t.WellFormed()
    ensures scoreDict == ScoreDictOf(t)
  {
    var uniqueOnsets := SortedUnique(t.onset);
    var uniqueOnsetIdxs := seq(|uniqueOnsets|, k requires 0 <= k < |uniqueOnsets| =>
                                 IndicesOf(t.onset, uniqueOnsets[k]));
    var iois := Iois(uniqueOnsets);
    scoreDict := map[];
    var i := 0;
    while i < |uniqueOnsets|
      invariant i <= |uniqueOnsets|
      invariant scoreDict == Zip(uniqueOnsets, Entries(t), i)
    {
      var on, ioi, ix := uniqueOnsets[i], iois[i], uniqueOnsetIdxs[i];
      StoreStep(t, i);
      scoreDict := scoreDict[on := Tuple(t, ix, ioi)];
      i := i + 1;
    }
  }

  // ---------------------------------------------------------------------
  // What the dictionary holds

  lemma {:induction false} ZipKeys<V>(keys: seq<real>, vals: seq<V>, n: nat)
    requires n <= |keys| && n <= |vals|
    ensures forall u :: u in Zip(keys, vals, n) <==> u in keys[..n]
  {
    if n > 0 {
      ZipKeys(keys, vals, n - 1);
      assert keys[..n] == keys[..n - 1] + [keys[n - 1]];
    }
  }

  lemma {:induction false} ZipAt<V>(keys: seq<real>, vals: seq<V>, n: nat, k: nat)
    requires n <= |keys| && n <= |vals|
    requires StrictlyIncreasing(keys) && k < n
    ensures keys[k] in Zip(keys, vals, n)
    ensures Zip(keys, vals, n)[keys[k]] == vals[k]
  {
    if k < n - 1 {
      ZipAt(keys, vals, n - 1, k);
    }
  }

  /** The keys are exactly the onsets that occur in the table. */
  lemma ScoreDictKeys(t: NoteTable)
    requires t.WellFormed()
    ensures forall u :: u in ScoreDictOf(t) <==> u in t.onset
  {
    var us := SortedUnique(t.onset);
    ZipKeys(us, Entries(t), |us|);
    assert us[..|us|] == us;
  }

  /** The entry under `u`, the `k`-th unique onset in ascending order. */
  lemma ScoreDictAt(t: NoteTable, k: nat, u: real)
    requires t.WellFormed() && k < |SortedUnique(t.onset)| && SortedUnique(t.onset)[k] == u
    ensures u in ScoreDictOf(t)
    ensures ScoreDictOf(t)[u] == Entry(t, u, Iois(SortedUnique(t.onset))[k])
  {
    var us := SortedUnique(t.onset);
    ZipAt(us, Entries(t), |us|, k);
    EntryOf(t, k);
  }

  /** Finds the rank of an occurring onset among the unique onsets. */
  lemma RankOf(s: seq<real>, u: real) returns (k: nat)
    requires u in s
    ensures k < |SortedUnique(s)| && SortedUnique(s)[k] == u
  {
    var us := SortedUnique(s);
    k :| 0 <= k < |us| && us[k] == u;
  }

  /** The position `u` holds, in note order, exactly the notes whose onset is
      `u`: all seven per-note fields have that group's length (at least 1),
      and the two scalars are the group means. */
  lemma {:induction false} PositionContents(t: NoteTable, u: real)
    requires t.WellFormed() && u in t.onset
    ensures var d, ix := ScoreDictOf(t), IndicesOf(t.onset, u);
      && u in d
      && |ix| >= 1
      && d[u].pitches == Pick(t.pitch, ix)
      && d[u].durations == Pick(t.duration, ix)
      && d[u].velDev == Pick(t.velDev, ix)
      && d[u].timing == Pick(t.timing, ix)
      && d[u].logArt == Pick(t.logArt, ix)
      && d[u].melody == Pick(t.melody, ix)
      && d[u].velTrend == Mean(Pick(t.velTrend, ix))
      && d[u].logBpr == Mean(Pick(t.logBpr, ix))
      && |d[u].pitches| == |d[u].durations| == |d[u].velDev| == |d[u].timing|
         == |d[u].logArt| == |d[u].melody| == |ix|
  {
    var k := RankOf(t.onset, u);
    ScoreDictAt(t, k, u);
    GroupNonEmpty(t.onset, u);
  }

  // ---------------------------------------------------------------------
  // Every note in exactly one group

  /** Total size of the index groups of the first `m` unique onsets. */
  function GroupSizes(s: seq<real>, us: seq<real>, m: nat): nat
    requires m <= |us|
  {
    if m == 0 then 0 else GroupSizes(s, us, m - 1) + |IndicesOf(s, us[m - 1])|
  }

  /** How many of the first `m` entries of `us` equal `x`. */
  function Occurrences(us: seq<real>, m: nat, x: real): nat
    requires m <= |us|
  {
    if m == 0 then 0 else Occurrences(us, m - 1, x) + (if us[m - 1] == x then 1 else 0)
  }

  lemma {:induction false} OccurrencesDistinct(us: seq<real>, m: nat, x: real)
    requires m <= |us| && StrictlyIncreasing(us)
    ensures Occurrences(us, m, x) == if x in us[..m] then 1 else 0
  {
    if m > 0 {
      OccurrencesDistinct(us, m - 1, x);
      assert us[..m] == us[..m - 1] + [us[m - 1]];
      if us[m - 1] == x {
        assert x !in us[..m - 1];
      }
    }
  }

  lemma {:induction false} GroupSizesOfEmpty(us: seq<real>, m: nat)
    requires m <= |us|
    ensures GroupSizes([], us, m) == 0
  {
    if m > 0 { GroupSizesOfEmpty(us, m - 1); }
  }

  /** Appending one note with onset `x` grows exactly the groups keyed `x`. */
  lemma {:induction false} GroupSizesStep(s: seq<real>, us: seq<real>, m: nat)
    requires |s| > 0 && m <= |us|
    ensures GroupSizes(s, us, m) == GroupSizes(s[..|s| - 1], us, m) + Occurrences(us, m, s[|s| - 1])
  {
    if m > 0 {
      GroupSizesStep(s, us, m - 1);
      IndicesOfLast(s, us[m - 1]);
    }
  }

  lemma {:induction false} IndicesOfLast(s: seq<real>, x: real)
    requires |s| > 0
    ensures |IndicesOf(s, x)| == |IndicesOf(s[..|s| - 1], x)| + if s[|s| - 1] == x then 1 else 0
  {
  }

  /** The groups of the unique onsets add up to the whole table. */
  lemma {:induction false} GroupSizesCover(s: seq<real>, us: seq<real>)
    requires StrictlyIncreasing(us)
    requires forall y :: y in s ==> y in us
    ensures GroupSizes(s, us, |us|) == |s|
  {
    if |s| == 0 {
      GroupSizesOfEmpty(us, |us|);
    } else {
      var n := |s| - 1;
      GroupSizesCover(s[..n], us);
      GroupSizesStep(s, us, |us|);
      OccurrencesDistinct(us, |us|, s[n]);
      assert us[..|us|] == us;
    }
  }

  /** Every note lies in exactly one group: the one keyed by its own onset. */
  lemma NoteInOneGroup(t: NoteTable, i: nat)
    requires t.WellFormed() && i < |t.onset|
    ensures var us := SortedUnique(t.onset);
      && (exists k :: 0 <= k < |us| && i in IndicesOf(t.onset, us[k]))
      && forall k :: 0 <= k < |us| && i in IndicesOf(t.onset, us[k]) ==> us[k] == t.onset[i]
  {
    var us := SortedUnique(t.onset);
    var k := RankOf(t.onset, t.onset[i]);
    IndicesComplete(t.onset, us[k], i);
    forall k' | 0 <= k' < |us| && i in IndicesOf(t.onset, us[k'])
      ensures us[k'] == t.onset[i]
    {
      var ix := IndicesOf(t.onset, us[k']);
      var j :| 0 <= j < |ix| && ix[j] == i;
    }
  }

  /** How many notes the positions keyed by the first `m` entries of `us` hold. */
  function NotesStored(d: map<real, Position>, us: seq<real>, m: nat): nat
    requires m <= |us| && forall k :: 0 <= k < |us| ==> us[k] in d
  {
    if m == 0 then 0 else NotesStored(d, us, m - 1) + |d[us[m - 1]].pitches|
  }

  /** Every unique onset is a key. */
  lemma UniqueOnsetsAreKeys(t: NoteTable)
    requires t.WellFormed()
    ensures var us := SortedUnique(t.onset);
      forall k :: 0 <= k < |us| ==> us[k] in ScoreDictOf(t)
  {
    ScoreDictKeys(t);
  }

  lemma {:induction false} NotesStoredIsGroupSizes(s: seq<real>, d: map<real, Position>, us: seq<real>, m: nat)
    requires m <= |us| && forall k :: 0 <= k < |us| ==> us[k] in d
    requires forall k :: 0 <= k < |us| ==> |d[us[k]].pitches| == |IndicesOf(s, us[k])|
    ensures NotesStored(d, us, m) == GroupSizes(s, us, m)
  {
    if m > 0 {
      NotesStoredIsGroupSizes(s, d, us, m - 1);
    }
  }

  lemma {:induction false} StoredCount(t: NoteTable, u: real)
    requires t.WellFormed() && u in t.onset
    ensures u in ScoreDictOf(t) && |ScoreDictOf(t)[u].pitches| == |IndicesOf(t.onset, u)|
  {
    PositionContents(t, u);
  }

  /** Summed over the positions, the per-note fields hold `|t.onset|` notes:
      no note is dropped or counted twice. */
  lemma NoNoteLost(t: NoteTable)
    requires t.WellFormed()
    ensures var us := SortedUnique(t.onset);
      (forall k :: 0 <= k < |us| ==> us[k] in ScoreDictOf(t))
      && NotesStored(ScoreDictOf(t), us, |us|) == |t.onset|
  {
    var us, d := SortedUnique(t.onset), ScoreDictOf(t);
    UniqueOnsetsAreKeys(t);
    forall k | 0 <= k < |us| ensures us[k] in d && |d[us[k]].pitches| == |IndicesOf(t.onset, us[k])| {
      StoredCount(t, us[k]);
    }
    NotesStoredIsGroupSizes(t.onset, d, us, |us|);
    GroupSizesCover(t.onset, us);
  }

  // ---------------------------------------------------------------------
  // Inter-onset intervals

  /** The smallest key's IOI is 0. */
  lemma IoiOfFirst(t: NoteTable, u: real)
    requires t.WellFormed()
    requires u in ScoreDictOf(t) && forall v :: v in ScoreDictOf(t) ==> u <= v
    ensures ScoreDictOf(t)[u].ioi == 0.0
  {
    ScoreDictKeys(t);
    var us := SortedUnique(t.onset);
    var k := RankOf(t.onset, u);
    ScoreDictAt(t, k, u);
    assert us[0] in ScoreDictOf(t);
    assert u <= us[0];
  }

  /** Every other key's IOI is its distance to the next smaller key, and positive. */
  lemma IoiOfSuccessor(t: NoteTable, v: real, u: real)
    requires t.WellFormed()
    requires v in ScoreDictOf(t) && u in ScoreDictOf(t) && v < u
    requires forall w :: w in ScoreDictOf(t) ==> !(v < w < u)
    ensures ScoreDictOf(t)[u].ioi == u - v > 0.0
  {
    ScoreDictKeys(t);
    var us := SortedUnique(t.onset);
    var k := RankOf(t.onset, u);
    var j := RankOf(t.onset, v);
    ScoreDictAt(t, k, u);
    assert j < k;
    assert us[k - 1] in ScoreDictOf(t);
    assert us[k - 1] <= v;
  }

  /** The IOIs are the inverse of the onsets' differences: summing the first
      `k + 1` of them recovers the `k`-th unique onset from the first. */
  lemma {:induction false} IoisTelescope(u: seq<real>, k: nat)
    requires k < |u|
    ensures u[k] == u[0] + Sum(Iois(u)[..k + 1])
  {
    var r := Iois(u);
    if k == 0 {
      assert Sum(r[..1]) == Sum(r[..0]) + r[0];
    } else {
      IoisTelescope(u, k - 1);
      assert r[..k + 1][..k] == r[..k];
      assert Sum(r[..k + 1]) == Sum(r[..k]) + r[k];
    }
  }

  // ---------------------------------------------------------------------
  // Group means

  /** The mean of a column over a group whose notes all carry `v` is `v`. */
  lemma {:induction false} GroupMeanOfUniform(col: seq<real>, s: seq<real>, u: real, v: real)
    requires |col| == |s| && u in s
    requires forall i :: 0 <= i < |s| && s[i] == u ==> col[i] == v
    ensures var ix := IndicesOf(s, u); |ix| > 0 && Mean(Pick(col, ix)) == v
  {
    GroupNonEmpty(s, u);
    MeanOfConstant(Pick(col, IndicesOf(s, u)), v);
  }

  /** When all notes at `u` carry the same velocity trend `vt`, the stored
      trend is `vt`; likewise for the log beat-period ratio `lb`. */
  lemma UniformGroupMeans(t: NoteTable, u: real, vt: real, lb: real)
    requires t.WellFormed() && u in t.onset
    ensures u in ScoreDictOf(t)
    ensures (forall i :: 0 <= i < |t.onset| && t.onset[i] == u ==> t.velTrend[i] == vt)
            ==> ScoreDictOf(t)[u].velTrend == vt
    ensures (forall i :: 0 <= i < |t.onset| && t.onset[i] == u ==> t.logBpr[i] == lb)
            ==> ScoreDictOf(t)[u].logBpr == lb
  {
    PositionContents(t, u);
    if forall i :: 0 <= i < |t.onset| && t.onset[i] == u ==> t.velTrend[i] == vt {
      GroupMeanOfUniform(t.velTrend, t.onset, u, vt);
    }
    if forall i :: 0 <= i < |t.onset| && t.onset[i] == u ==> t.logBpr[i] == lb {
      GroupMeanOfUniform(t.logBpr, t.onset, u, lb);
    }
  }

  // ---------------------------------------------------------------------
  // Shifting every onset by the same amount

  lemma ShiftIncreasing(u: seq<real>, c: real)
    requires StrictlyIncreasing(u)
    ensures StrictlyIncreasing(Shift(u, c))
  {
    var v := Shift(u, c);
    forall i, j | 0 <= i < j < |v| ensures v[i] < v[j] {
      assert u[i] < u[j];
    }
  }

  lemma {:induction false} ShiftInsert(u: seq<real>, x: real, c: real)
    requires StrictlyIncreasing(u)
    ensures StrictlyIncreasing(Shift(u, c))
    ensures Insert(Shift(u, c), x - c) == Shift(Insert(u, x), c)
  {
    ShiftIncreasing(u, c);
    if |u| == 0 {
    } else if x < u[0] {
      ShiftInsertFront(u, x, c);
    } else if x == u[0] {
      assert x - c == Shift(u, c)[0];
    } else {
      ShiftInsert(u[1..], x, c);
      ShiftInsertLater(u, x, c);
    }
  }

  lemma ShiftInsertFront(u: seq<real>, x: real, c: real)
    requires StrictlyIncreasing(u) && |u| > 0 && x < u[0]
    ensures Insert(Shift(u, c), x - c) == Shift(Insert(u, x), c)
  {
    ShiftIncreasing(u, c);
    assert x - c < Shift(u, c)[0];
    assert Shift([x] + u, c) == [x - c] + Shift(u, c);
  }

  lemma ShiftInsertLater(u: seq<real>, x: real, c: real)
    requires StrictlyIncreasing(u) && |u| > 0 && u[0] < x
    requires Insert(Shift(u[1..], c), x - c) == Shift(Insert(u[1..], x), c)
    ensures Insert(Shift(u, c), x - c) == Shift(Insert(u, x), c)
  {
    var v := Shift(u, c);
    ShiftIncreasing(u, c);
    assert x - c > v[0];
    ShiftCons(u[0], u[1..], c);
    assert u == [u[0]] + u[1..];
    ShiftCons(u[0], Insert(u[1..], x), c);
  }

  lemma ShiftCons(h: real, rest: seq<real>, c: real)
    ensures Shift([h] + rest, c) == [h - c] + Shift(rest, c)
  {
  }

  lemma {:induction false} ShiftSortedUnique(s: seq<real>, c: real)
    ensures SortedUnique(Shift(s, c)) == Shift(SortedUnique(s), c)
  {
    if |s| > 0 {
      var n := |s| - 1;
      assert Shift(s, c)[..n] == Shift(s[..n], c);
      ShiftSortedUnique(s[..n], c);
      ShiftInsert(SortedUnique(s[..n]), s[n], c);
    }
  }

  lemma {:induction false} ShiftIndices(s: seq<real>, c: real, u: real, v: real)
    requires v == u - c
    ensures IndicesOf(Shift(s, c), v) == IndicesOf(s, u)
  {
    if |s| > 0 {
      var n := |s| - 1;
      assert Shift(s, c)[..n] == Shift(s[..n], c);
      ShiftIndices(s[..n], c, u, v);
    }
  }

  /** Moving every onset by `c` (as the zero-shift does) moves the key `u`
      to `v = u - c` and leaves its tuple, IOI included, unchanged: the
      grouping and the IOIs do not depend on where the onsets start. */
  lemma ShiftInvariance(t: NoteTable, c: real, u: real, v: real)
    requires t.WellFormed() && u in t.onset && v == u - c
    ensures t.(onset := Shift(t.onset, c)).WellFormed()
    ensures u in ScoreDictOf(t) && v in ScoreDictOf(t.(onset := Shift(t.onset, c)))
    ensures ScoreDictOf(t.(onset := Shift(t.onset, c)))[v] == ScoreDictOf(t)[u]
  {
    var t' := t.(onset := Shift(t.onset, c));
    var k := RankOf(t.onset, u);
    var io := ShiftedRank(t, c, u, v, k);
    ScoreDictAt(t, k, u);
    ScoreDictAt(t', k, v);
    ShiftedGroup(t, c, u, v, io);
  }

  /** The keys of the shifted dictionary are the original keys moved by `c`:
      `v` is a key after the shift exactly when `u = v + c` was one before. */
  lemma ShiftedKeys(t: NoteTable, c: real, u: real, v: real)
    requires t.WellFormed() && v == u - c
    ensures t.(onset := Shift(t.onset, c)).WellFormed()
    ensures v in ScoreDictOf(t.(onset := Shift(t.onset, c))) <==> u in ScoreDictOf(t)
  {
    var t' := t.(onset := Shift(t.onset, c));
    KeyIsOnset(t', v);
    ShiftedMember(t.onset, c, u, v);
    KeyIsOnset(t, u);
  }

  lemma ShiftedMember(s: seq<real>, c: real, u: real, v: real)
    requires v == u - c
    ensures v in Shift(s, c) <==> u in s
  {
    if v in Shift(s, c) {
      var i :| 0 <= i < |s| && Shift(s, c)[i] == v;
      assert s[i] == u;
    }
    if u in s {
      var i :| 0 <= i < |s| && s[i] == u;
      assert Shift(s, c)[i] == v;
    }
  }

  /** `ScoreDictKeys` for the one value `u`. Kept separately so that callers
      get the fact for a named key without instantiating the quantifier,
      which keeps the shift proofs within the solver's budget. */
  lemma KeyIsOnset(t: NoteTable, u: real)
    requires t.WellFormed()
    ensures u in ScoreDictOf(t) <==> u in t.onset
  {
    ScoreDictKeys(t);
  }

  lemma ShiftedRank(t: NoteTable, c: real, u: real, v: real, k: nat) returns (io: real)
    requires t.WellFormed() && v == u - c
    requires k < |SortedUnique(t.onset)| && SortedUnique(t.onset)[k] == u
    ensures var us, us' := SortedUnique(t.onset), SortedUnique(Shift(t.onset, c));
      k < |us'| && us'[k] == v && io == Iois(us)[k] == Iois(us')[k]
  {
    var us, us' := SortedUnique(t.onset), SortedUnique(Shift(t.onset, c));
    ShiftSortedUnique(t.onset, c);
    io := Iois(us)[k];
  }

  lemma ShiftedGroup(t: NoteTable, c: real, u: real, v: real, io: real)
    requires t.WellFormed() && u in t.onset && v == u - c
    ensures var t' := t.(onset := Shift(t.onset, c));
      t'.WellFormed() && v in t'.onset && Entry(t', v, io) == Entry(t, u, io)
  {
    var t' := t.(onset := Shift(t.onset, c));
    ShiftIndices(t.onset, c, u, v);
    ShiftedMember(t.onset, c, u, v);
  }
}
