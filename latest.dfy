/**
  Collapsing a stream of records to the latest record per (user, race) key.

  The source keeps a JavaScript `Map` from a key string to a record and walks the
  stream once: a record is stored when its key is new, or when its timestamp is
  strictly later than the stored one. A `Map` remembers the order in which keys
  were first set, and setting an existing key keeps its place; the model keeps the
  map as a list of records with distinct keys in that order, so that the list is
  also what `Array.from(map.values())` returns.

  The key is modelled as a pair instead of the concatenated string, so two
  different pairs never share a key.
*/
module Latest {

  datatype Key = Key(userId: string, raceId: string)

  ghost predicate DistinctKeys<T>(m: seq<T>, keyOf: T -> Key) {
    forall i, j :: 0 <= i < j < |m| ==> keyOf(m[i]) != keyOf(m[j])
  }

  /** Position of the record stored under `k`, or -1 (the map's `get`). */
  function IndexOfKey<T>(m: seq<T>, k: Key, keyOf: T -> Key): (i: int)
    ensures -1 <= i < |m|
    ensures i >= 0 ==> keyOf(m[i]) == k
    ensures i == -1 <==> forall j :: 0 <= j < |m| ==> keyOf(m[j]) != k
  {
    if |m| == 0 then -1
    else if keyOf(m[0]) == k then 0
    else
      var r := IndexOfKey(m[1..], k, keyOf);
      if r == -1 then -1 else r + 1
  }

  /** One step of the scan: store `x` if its key is new or it is strictly later. */
  function Upsert<T>(m: seq<T>, x: T, keyOf: T -> Key, timeOf: T -> int): seq<T> {
    var i := IndexOfKey(m, keyOf(x), keyOf);
    if i == -1 then m + [x]
    else if timeOf(x) > timeOf(m[i]) then m[i := x]
    else m
  }

  /** The map's values after scanning the whole stream. */
  function LatestOf<T>(xs: seq<T>, keyOf: T -> Key, timeOf: T -> int): seq<T>
    decreases |xs|
  {
    if |xs| == 0 then []
    else Upsert(LatestOf(xs[..|xs| - 1], keyOf, timeOf), xs[|xs| - 1], keyOf, timeOf)
  }

  /**
    `xs[w]` is the record the scan keeps for its key: no record with that key is
    later, and every record with that key before it is strictly earlier (so on a
    timestamp tie the first one wins).
  */
  ghost predicate Survivor<T>(xs: seq<T>, w: int, keyOf: T -> Key, timeOf: T -> int)
    requires 0 <= w < |xs|
  {
    forall j :: 0 <= j < |xs| && keyOf(xs[j]) == keyOf(xs[w]) ==>
      timeOf(xs[j]) <= timeOf(xs[w]) && (j < w ==> timeOf(xs[j]) < timeOf(xs[w]))
  }

  /** `ws[i]` is the position in `xs` of the survivor that `m[i]` holds. */
  ghost predicate Witnesses<T>(xs: seq<T>, m: seq<T>, ws: seq<int>, keyOf: T -> Key, timeOf: T -> int) {
    |ws| == |m| &&
    forall i :: 0 <= i < |m| ==> 0 <= ws[i] < |xs| && xs[ws[i]] == m[i] && Survivor(xs, ws[i], keyOf, timeOf)
  }

  ghost predicate CoversKeys<T>(xs: seq<T>, m: seq<T>, keyOf: T -> Key) {
    forall j :: 0 <= j < |xs| ==> IndexOfKey(m, keyOf(xs[j]), keyOf) != -1
  }

  /** `m` holds exactly one record per key of `xs`, and that record is the key's survivor. */
  ghost predicate IsLatestView<T>(xs: seq<T>, m: seq<T>, keyOf: T -> Key, timeOf: T -> int) {
    && DistinctKeys(m, keyOf)
    && (exists ws :: Witnesses(xs, m, ws, keyOf, timeOf))
    && CoversKeys(xs, m, keyOf)
  }

  /** A survivor stays one when a record that does not beat it is appended. */
  lemma SurvivorExtends<T>(xs: seq<T>, x: T, w: int, keyOf: T -> Key, timeOf: T -> int)
    requires 0 <= w < |xs| && Survivor(xs, w, keyOf, timeOf)
    requires keyOf(x) == keyOf(xs[w]) ==> timeOf(x) <= timeOf(xs[w])
    ensures Survivor(xs + [x], w, keyOf, timeOf)
  {
    var ys := xs + [x];
    forall j | 0 <= j < |ys| && keyOf(ys[j]) == keyOf(ys[w])
      ensures timeOf(ys[j]) <= timeOf(ys[w]) && (j < w ==> timeOf(ys[j]) < timeOf(ys[w]))
    {
      if j < |xs| { assert ys[j] == xs[j]; }
    }
  }

  /** An appended record is its key's survivor when every earlier record of that key is strictly earlier. */
  lemma LastIsSurvivor<T>(xs: seq<T>, x: T, keyOf: T -> Key, timeOf: T -> int)
    requires forall j :: 0 <= j < |xs| && keyOf(xs[j]) == keyOf(x) ==> timeOf(xs[j]) < timeOf(x)
    ensures Survivor(xs + [x], |xs|, keyOf, timeOf)
  {
    var ys := xs + [x];
    forall j | 0 <= j < |ys| && keyOf(ys[j]) == keyOf(ys[|xs|])
      ensures timeOf(ys[j]) <= timeOf(ys[|xs|]) && (j < |xs| ==> timeOf(ys[j]) < timeOf(ys[|xs|]))
    {
      if j < |xs| { assert ys[j] == xs[j]; }
    }
  }

  /** Whether `m` has a record with key `k` depends only on its keys. */
  lemma SameKeysSameIndexing<T>(m: seq<T>, m': seq<T>, k: Key, keyOf: T -> Key, i: int)
    requires 0 <= i < |m| && i < |m'| && keyOf(m[i]) == k && keyOf(m'[i]) == k
    ensures IndexOfKey(m', k, keyOf) != -1
  {
  }

  lemma NewKeyStep<T>(xs: seq<T>, x: T, m: seq<T>, ws: seq<int>, keyOf: T -> Key, timeOf: T -> int)
      returns (ws': seq<int>)
    requires DistinctKeys(m, keyOf) && Witnesses(xs, m, ws, keyOf, timeOf) && CoversKeys(xs, m, keyOf)
    requires IndexOfKey(m, keyOf(x), keyOf) == -1
    ensures DistinctKeys(m + [x], keyOf) && Witnesses(xs + [x], m + [x], ws', keyOf, timeOf)
    ensures CoversKeys(xs + [x], m + [x], keyOf)
  {
    var ys, m' := xs + [x], m + [x];
    ws' := ws + [|xs|];
    forall j | 0 <= j < |xs| ensures keyOf(xs[j]) != keyOf(x) {
      var i := IndexOfKey(m, keyOf(xs[j]), keyOf);
    }
    LastIsSurvivor(xs, x, keyOf, timeOf);
    forall i | 0 <= i < |m'|
      ensures 0 <= ws'[i] < |ys| && ys[ws'[i]] == m'[i] && Survivor(ys, ws'[i], keyOf, timeOf)
    {
      if i < |m| {
        assert keyOf(m[i]) != keyOf(x);
        SurvivorExtends(xs, x, ws[i], keyOf, timeOf);
      }
    }
    forall j | 0 <= j < |ys| ensures IndexOfKey(m', keyOf(ys[j]), keyOf) != -1 {
      if j < |xs| {
        var i := IndexOfKey(m, keyOf(xs[j]), keyOf);
        SameKeysSameIndexing(m, m', keyOf(ys[j]), keyOf, i);
      } else {
        SameKeysSameIndexing(m', m', keyOf(ys[j]), keyOf, |m|);
      }
    }
  }

  lemma LaterStep<T>(xs: seq<T>, x: T, m: seq<T>, ws: seq<int>, keyOf: T -> Key, timeOf: T -> int, at: int)
      returns (ws': seq<int>)
    requires DistinctKeys(m, keyOf) && Witnesses(xs, m, ws, keyOf, timeOf) && CoversKeys(xs, m, keyOf)
    requires 0 <= at < |m| && keyOf(m[at]) == keyOf(x) && timeOf(x) > timeOf(m[at])
    ensures DistinctKeys(m[at := x], keyOf) && Witnesses(xs + [x], m[at := x], ws', keyOf, timeOf)
    ensures CoversKeys(xs + [x], m[at := x], keyOf)
  {
    var ys, m' := xs + [x], m[at := x];
    ws' := ws[at := |xs|];
    var w0 := ws[at];
    forall j | 0 <= j < |xs| && keyOf(xs[j]) == keyOf(x) ensures timeOf(xs[j]) < timeOf(x) {
      assert keyOf(xs[j]) == keyOf(xs[w0]);
    }
    LastIsSurvivor(xs, x, keyOf, timeOf);
    forall i | 0 <= i < |m'|
      ensures 0 <= ws'[i] < |ys| && ys[ws'[i]] == m'[i] && Survivor(ys, ws'[i], keyOf, timeOf)
    {
      if i != at {
        assert keyOf(m[i]) != keyOf(m[at]);
        SurvivorExtends(xs, x, ws[i], keyOf, timeOf);
      }
    }
    forall j | 0 <= j < |ys| ensures IndexOfKey(m', keyOf(ys[j]), keyOf) != -1 {
      if j < |xs| {
        var i := IndexOfKey(m, keyOf(xs[j]), keyOf);
        SameKeysSameIndexing(m, m', keyOf(ys[j]), keyOf, i);
      } else {
        SameKeysSameIndexing(m', m', keyOf(ys[j]), keyOf, at);
      }
    }
  }

  lemma NotLaterStep<T>(xs: seq<T>, x: T, m: seq<T>, ws: seq<int>, keyOf: T -> Key, timeOf: T -> int, at: int)
    requires DistinctKeys(m, keyOf) && Witnesses(xs, m, ws, keyOf, timeOf) && CoversKeys(xs, m, keyOf)
    requires 0 <= at < |m| && keyOf(m[at]) == keyOf(x) && timeOf(x) <= timeOf(m[at])
    ensures Witnesses(xs + [x], m, ws, keyOf, timeOf) && CoversKeys(xs + [x], m, keyOf)
  {
    var ys := xs + [x];
    forall i | 0 <= i < |m|
      ensures 0 <= ws[i] < |ys| && ys[ws[i]] == m[i] && Survivor(ys, ws[i], keyOf, timeOf)
    {
      if i != at {
        assert keyOf(m[i]) != keyOf(m[at]);
      }
      SurvivorExtends(xs, x, ws[i], keyOf, timeOf);
    }
    forall j | 0 <= j < |ys| ensures IndexOfKey(m, keyOf(ys[j]), keyOf) != -1 {
      if j < |xs| {
        assert ys[j] == xs[j];
      } else {
        SameKeysSameIndexing(m, m, keyOf(ys[j]), keyOf, at);
      }
    }
  }

  /** The scan keeps exactly the survivor of every key, once. */
  lemma {:induction false} LatestOfIsLatestView<T>(xs: seq<T>, keyOf: T -> Key, timeOf: T -> int)
    ensures IsLatestView(xs, LatestOf(xs, keyOf, timeOf), keyOf, timeOf)
  {
    var ws := LatestOfWitnesses(xs, keyOf, timeOf);
  }

  lemma {:induction false} LatestOfWitnesses<T>(xs: seq<T>, keyOf: T -> Key, timeOf: T -> int)
      returns (ws: seq<int>)
    ensures DistinctKeys(LatestOf(xs, keyOf, timeOf), keyOf)
    ensures Witnesses(xs, LatestOf(xs, keyOf, timeOf), ws, keyOf, timeOf)
    ensures CoversKeys(xs, LatestOf(xs, keyOf, timeOf), keyOf)
  {
    if |xs| == 0 {
      ws := [];
    } else {
      var p, x := xs[..|xs| - 1], xs[|xs| - 1];
      assert xs == p + [x];
      var wp := LatestOfWitnesses(p, keyOf, timeOf);
      var m := LatestOf(p, keyOf, timeOf);
      assert LatestOf(xs, keyOf, timeOf) == Upsert(m, x, keyOf, timeOf);
      var at := IndexOfKey(m, keyOf(x), keyOf);
      if at == -1 {
        assert Upsert(m, x, keyOf, timeOf) == m + [x];
        ws := NewKeyStep(p, x, m, wp, keyOf, timeOf);
      } else if timeOf(x) > timeOf(m[at]) {
        assert Upsert(m, x, keyOf, timeOf) == m[at := x];
        ws := LaterStep(p, x, m, wp, keyOf, timeOf, at);
      } else {
        assert Upsert(m, x, keyOf, timeOf) == m;
        NotLaterStep(p, x, m, wp, keyOf, timeOf, at);
        ws := wp;
      }
    }
  }

  /** A stream whose keys are already distinct collapses to itself. */
  lemma {:induction false} DistinctStreamIsItsOwnView<T>(xs: seq<T>, keyOf: T -> Key, timeOf: T -> int)
    requires DistinctKeys(xs, keyOf)
    ensures LatestOf(xs, keyOf, timeOf) == xs
  {
    if |xs| > 0 {
      var p, x := xs[..|xs| - 1], xs[|xs| - 1];
      assert DistinctKeys(p, keyOf) by {
        forall i, j | 0 <= i < j < |p| ensures keyOf(p[i]) != keyOf(p[j]) {
          assert p[i] == xs[i] && p[j] == xs[j];
        }
      }
      DistinctStreamIsItsOwnView(p, keyOf, timeOf);
      forall j | 0 <= j < |p| ensures keyOf(p[j]) != keyOf(x) {
        assert p[j] == xs[j];
      }
      assert IndexOfKey(p, keyOf(x), keyOf) == -1;
      assert LatestOf(xs, keyOf, timeOf) == Upsert(p, x, keyOf, timeOf) == p + [x];
      assert p + [x] == xs;
    }
  }

  /**
    Appending a record that does not beat the current survivor of its key (it is
    not strictly later) leaves the collapsed view unchanged.
  */
  lemma AppendSupersededIsNoOp<T>(xs: seq<T>, x: T, keyOf: T -> Key, timeOf: T -> int, i: int)
    requires 0 <= i < |LatestOf(xs, keyOf, timeOf)|
    requires keyOf(LatestOf(xs, keyOf, timeOf)[i]) == keyOf(x)
    requires timeOf(x) <= timeOf(LatestOf(xs, keyOf, timeOf)[i])
    ensures LatestOf(xs + [x], keyOf, timeOf) == LatestOf(xs, keyOf, timeOf)
  {
    var m := LatestOf(xs, keyOf, timeOf);
    assert (xs + [x])[..|xs|] == xs;
    LatestOfIsLatestView(xs, keyOf, timeOf);
    var at := IndexOfKey(m, keyOf(x), keyOf);
    assert keyOf(m[at]) == keyOf(m[i]);
    assert at == i;
  }

  /**
    Appending a record strictly later than the current survivor of its key puts it
    in that survivor's place and changes nothing else.
  */
  lemma AppendCorrectionReplaces<T>(xs: seq<T>, x: T, keyOf: T -> Key, timeOf: T -> int, i: int)
    requires 0 <= i < |LatestOf(xs, keyOf, timeOf)|
    requires keyOf(LatestOf(xs, keyOf, timeOf)[i]) == keyOf(x)
    requires timeOf(x) > timeOf(LatestOf(xs, keyOf, timeOf)[i])
    ensures LatestOf(xs + [x], keyOf, timeOf) == LatestOf(xs, keyOf, timeOf)[i := x]
  {
    var m := LatestOf(xs, keyOf, timeOf);
    assert (xs + [x])[..|xs|] == xs;
    LatestOfIsLatestView(xs, keyOf, timeOf);
    var at := IndexOfKey(m, keyOf(x), keyOf);
    assert keyOf(m[at]) == keyOf(m[i]);
    assert at == i;
  }

  /** The source's `forEach` over the stream, filling the map. */
  method CollapseLatest<T>(xs: seq<T>, keyOf: T -> Key, timeOf: T -> int) returns (valid: seq<T>)
    ensures valid == LatestOf(xs, keyOf, timeOf)
    ensures IsLatestView(xs, valid, keyOf, timeOf)
  {
    var latest: seq<T> := [];
    for i := 0 to |xs|
      invariant latest == LatestOf(xs[..i], keyOf, timeOf)
    {
      var x := xs[i];
      var at := IndexOfKey(latest, keyOf(x), keyOf);
      if at == -1 || timeOf(x) > timeOf(latest[at]) {
        latest := if at == -1 then latest + [x] else latest[at := x];
      }
      assert xs[..i + 1][..i] == xs[..i];
    }
    assert xs[..|xs|] == xs;
    valid := latest;
    LatestOfIsLatestView(xs, keyOf, timeOf);
  }

  /**
    A record strictly later than everything before it is always kept: it is the
    one record the collapsed view holds for its key.
  */
  lemma NewestRecordIsKept<T>(xs: seq<T>, x: T, keyOf: T -> Key, timeOf: T -> int)
    requires forall j :: 0 <= j < |xs| ==> timeOf(xs[j]) < timeOf(x)
    ensures x in LatestOf(xs + [x], keyOf, timeOf)
    ensures forall y :: y in LatestOf(xs + [x], keyOf, timeOf) && keyOf(y) == keyOf(x) ==> y == x
  {
    var ys := xs + [x];
    assert ys[..|xs|] == xs;
    var m := LatestOf(ys, keyOf, timeOf);
    var ws := LatestOfWitnesses(ys, keyOf, timeOf);
    var at := IndexOfKey(m, keyOf(ys[|xs|]), keyOf);
    assert at != -1;
    assert Survivor(ys, ws[at], keyOf, timeOf);
    assert keyOf(ys[|xs|]) == keyOf(ys[ws[at]]);
    assert timeOf(ys[|xs|]) <= timeOf(ys[ws[at]]);
    assert ws[at] == |xs|;
    forall y | y in m && keyOf(y) == keyOf(x) ensures y == x {
      var k :| 0 <= k < |m| && m[k] == y;
      assert keyOf(m[k]) == keyOf(m[at]);
      assert k == at;
    }
  }
}
