/** Writes trace data back onto the response headers. */
module TraceabilityResponseHeaderCompositor {
  import opened Wrappers
  import opened Text
  import opened Http
  import opened Datafill

  /** One header line: a key and a single value. */
  type Line = (string, string)

  /** The keys the compositor writes, in the order it writes them. */
  function WellKnownKeys(df: TraceabilityDatafill): seq<string>
  {
    [df.applicationId, df.transactionId, df.requestId, df.duration]
  }

  /** `traceValue`: the pieces of the value stored under `key`, split on the separator. */
  function TraceValue(df: TraceabilityDatafill, traceData: map<string, string>, key: string): (r: Option<seq<string>>)
    requires |df.listSeparator| > 0
    ensures r.Some? <==> key in traceData
    ensures r.Some? ==> |r.value| >= 1 && Join(r.value, df.listSeparator) == traceData[key]
    ensures r.Some? ==> forall k :: 0 <= k < |r.value| ==> !Occurs(r.value[k], df.listSeparator)
  {
    if key in traceData then
      JoinSplit(traceData[key], df.listSeparator);
      SplitPiecesSeparatorFree(traceData[key], df.listSeparator);
      Some(Split(traceData[key], df.listSeparator))
    else None
  }

  /** The header lines for `values` under one key. */
  function KeyLines(key: string, values: seq<string>): (ls: seq<Line>)
    ensures |ls| == |values| && forall j :: 0 <= j < |ls| ==> ls[j] == (key, values[j])
  {
    seq(|values|, j requires 0 <= j < |values| => (key, values[j]))
  }

  /** The header lines written for one key: one per piece, nothing when the key is absent. */
  function LinesOfKey(df: TraceabilityDatafill, traceData: map<string, string>, key: string): seq<Line>
    requires |df.listSeparator| > 0
  {
    match TraceValue(df, traceData, key)
    case None => []
    case Some(values) => KeyLines(key, values)
  }

  /** The header lines written for `keys`, key after key. */
  function LinesFor(df: TraceabilityDatafill, traceData: map<string, string>, keys: seq<string>): seq<Line>
    requires |df.listSeparator| > 0
  {
    if keys == [] then []
    else LinesFor(df, traceData, keys[..|keys| - 1]) + LinesOfKey(df, traceData, keys[|keys| - 1])
  }

  /** Headers after adding `lines` one after the other. */
  function ApplyLines(h: Headers, lines: seq<Line>): Headers
  {
    if lines == [] then h
    else AddHeader(ApplyLines(h, lines[..|lines| - 1]), lines[|lines| - 1].0, lines[|lines| - 1].1)
  }

  /**
   * The response headers after `invoke`, starting from headers `h`: the keys
   * are the old ones plus the well-known keys the trace data holds.
   */
  function Composed(h: Headers, df: TraceabilityDatafill, traceData: map<string, string>): (r: Headers)
    requires |df.listSeparator| > 0
    ensures r.Keys == h.Keys + HeldKeys(traceData, WellKnownKeys(df))
  {
    var lines := LinesFor(df, traceData, WellKnownKeys(df));
    ApplyLinesEffect(h, lines, "");
    LinesForEffect(df, traceData, WellKnownKeys(df), "");
    ApplyLines(h, lines)
  }

  /** `invoke`: for each well-known key present, add every piece of its value to the response. */
  method Invoke(df: TraceabilityDatafill, traceData: map<string, string>, response: HttpResponse)
    requires |df.listSeparator| > 0
    modifies response
    ensures response.headers == Composed(old(response.headers), df, traceData)
  {
    ghost var h0 := response.headers;
    var keys := WellKnownKeys(df);
    var i := 0;
    while i < |keys|
      invariant 0 <= i <= |keys|
      invariant response.headers == ApplyLines(h0, LinesFor(df, traceData, keys[..i]))
    {
      var key := keys[i];
      LinesForSnoc(df, traceData, keys, i);
      var value := TraceValue(df, traceData, key);
      if value.Some? {
        AddEach(response, key, value.value, h0, LinesFor(df, traceData, keys[..i]));
      } else {
        assert LinesFor(df, traceData, keys[..i]) + LinesOfKey(df, traceData, key) == LinesFor(df, traceData, keys[..i]);
      }
      i := i + 1;
    }
    assert keys[..i] == keys;
  }

  /**
   * The inner loop of `invoke`: add each of `values` under `key`. The ghost
   * parameters name the lines already written since the headers were `h0`.
   */
  method AddEach(response: HttpResponse, key: string, values: seq<string>, ghost h0: Headers, ghost done: seq<Line>)
    requires response.headers == ApplyLines(h0, done)
    modifies response
    ensures response.headers == ApplyLines(h0, done + KeyLines(key, values))
  {
    var j := 0;
    assert done + KeyLines(key, values[..0]) == done;
    while j < |values|
      invariant 0 <= j <= |values|
      invariant response.headers == ApplyLines(h0, done + KeyLines(key, values[..j]))
    {
      response.Add(key, values[j]);
      KeyLinesSnoc(key, values, j);
      ApplyLinesSnoc(h0, done + KeyLines(key, values[..j]), (key, values[j]));
      assert done + KeyLines(key, values[..j + 1]) == done + KeyLines(key, values[..j]) + [(key, values[j])];
      j := j + 1;
    }
    assert values[..j] == values;
  }

  lemma LinesForSnoc(df: TraceabilityDatafill, traceData: map<string, string>, keys: seq<string>, i: nat)
    requires |df.listSeparator| > 0 && i < |keys|
    ensures LinesFor(df, traceData, keys[..i + 1]) == LinesFor(df, traceData, keys[..i]) + LinesOfKey(df, traceData, keys[i])
  {
    assert keys[..i + 1][..i] == keys[..i];
  }

  lemma KeyLinesSnoc(key: string, values: seq<string>, j: nat)
    requires j < |values|
    ensures KeyLines(key, values[..j + 1]) == KeyLines(key, values[..j]) + [(key, values[j])]
  {
  }

  lemma ApplyLinesSnoc(h: Headers, lines: seq<Line>, x: Line)
    ensures ApplyLines(h, lines + [x]) == AddHeader(ApplyLines(h, lines), x.0, x.1)
  {
    assert (lines + [x])[..|lines|] == lines;
  }

  // ---- What composition does to each key ----

  /** The values the lines carry under `key`, in order. */
  function ValuesOf(lines: seq<Line>, key: string): seq<string>
  {
    if lines == [] then []
    else ValuesOf(lines[..|lines| - 1], key) + (if lines[|lines| - 1].0 == key then [lines[|lines| - 1].1] else [])
  }

  /** The keys the lines write. */
  function KeysOf(lines: seq<Line>): set<string>
  {
    if lines == [] then {} else KeysOf(lines[..|lines| - 1]) + {lines[|lines| - 1].0}
  }

  /** Adding lines appends, under each key, exactly the values the lines carry for it. */
  lemma {:induction false} ApplyLinesEffect(h: Headers, lines: seq<Line>, key: string)
    ensures Values(ApplyLines(h, lines), key) == Values(h, key) + ValuesOf(lines, key)
    ensures ApplyLines(h, lines).Keys == h.Keys + KeysOf(lines)
    decreases |lines|
  {
    if lines != [] {
      ApplyLinesEffect(h, lines[..|lines| - 1], key);
    }
  }

  lemma {:induction false} ValuesOfAppend(a: seq<Line>, b: seq<Line>, key: string)
    ensures ValuesOf(a + b, key) == ValuesOf(a, key) + ValuesOf(b, key)
    ensures KeysOf(a + b) == KeysOf(a) + KeysOf(b)
    decreases |b|
  {
    if b != [] {
      var b' := b[..|b| - 1];
      assert (a + b)[..|a + b| - 1] == a + b';
      ValuesOfAppend(a, b', key);
    } else {
      assert a + b == a;
    }
  }

  lemma {:induction false} KeyLinesValues(k: string, values: seq<string>, key: string)
    ensures ValuesOf(KeyLines(k, values), key) == if k == key then values else []
    ensures KeysOf(KeyLines(k, values)) == if values == [] then {} else {k}
    decreases |values|
  {
    if values != [] {
      var v' := values[..|values| - 1];
      assert KeyLines(k, values)[..|values| - 1] == KeyLines(k, v');
      KeyLinesValues(k, v', key);
    }
  }

  /**
   * The values composition adds under `key`, defined key by key rather than
   * line by line: the pieces of every listed key equal to `key` that the
   * trace data holds, in list order.
   */
  function Contribution(df: TraceabilityDatafill, traceData: map<string, string>, keys: seq<string>, key: string): seq<string>
    requires |df.listSeparator| > 0
  {
    if keys == [] then []
    else Contribution(df, traceData, keys[..|keys| - 1], key) + Piece(df, traceData, keys[|keys| - 1], key)
  }

  /** What listed key `k` contributes under `key`. */
  function Piece(df: TraceabilityDatafill, traceData: map<string, string>, k: string, key: string): seq<string>
    requires |df.listSeparator| > 0
  {
    if k == key && k in traceData then Split(traceData[k], df.listSeparator) else []
  }

  /** The set of listed keys that the trace data holds. */
  function HeldKeys(traceData: map<string, string>, keys: seq<string>): set<string>
  {
    if keys == [] then {}
    else HeldKeys(traceData, keys[..|keys| - 1]) + (if keys[|keys| - 1] in traceData then {keys[|keys| - 1]} else {})
  }

  lemma {:induction false} HeldKeysMembership(traceData: map<string, string>, keys: seq<string>, k: string)
    ensures k in HeldKeys(traceData, keys) <==> k in keys && k in traceData
    decreases |keys|
  {
    if keys != [] {
      HeldKeysMembership(traceData, keys[..|keys| - 1], k);
      assert keys == keys[..|keys| - 1] + [keys[|keys| - 1]];
    }
  }

  lemma {:induction false} LinesForEffect(df: TraceabilityDatafill, traceData: map<string, string>, keys: seq<string>, key: string)
    requires |df.listSeparator| > 0
    ensures ValuesOf(LinesFor(df, traceData, keys), key) == Contribution(df, traceData, keys, key)
    ensures KeysOf(LinesFor(df, traceData, keys)) == HeldKeys(traceData, keys)
    decreases |keys|
  {
    if keys != [] {
      var init := keys[..|keys| - 1];
      var last := keys[|keys| - 1];
      LinesForEffect(df, traceData, init, key);
      ValuesOfAppend(LinesFor(df, traceData, init), LinesOfKey(df, traceData, last), key);
      if last in traceData {
        KeyLinesValues(last, Split(traceData[last], df.listSeparator), key);
      }
    }
  }

  /**
   * Composition in full: each key keeps its old values and gains its
   * contribution; the keys gained are the well-known ones the trace data holds.
   */
  lemma ComposedEffect(h: Headers, df: TraceabilityDatafill, traceData: map<string, string>, key: string)
    requires |df.listSeparator| > 0
    ensures Values(Composed(h, df, traceData), key) == Values(h, key) + Contribution(df, traceData, WellKnownKeys(df), key)
    ensures key in Composed(h, df, traceData) <==> key in h || (key in WellKnownKeys(df) && key in traceData)
  {
    var lines := LinesFor(df, traceData, WellKnownKeys(df));
    ApplyLinesEffect(h, lines, key);
    LinesForEffect(df, traceData, WellKnownKeys(df), key);
    HeldKeysMembership(traceData, WellKnownKeys(df), key);
  }

  lemma {:induction false} ContributionOfOtherKey(df: TraceabilityDatafill, traceData: map<string, string>, keys: seq<string>, key: string)
    requires |df.listSeparator| > 0
    requires key !in keys || key !in traceData
    ensures Contribution(df, traceData, keys, key) == []
    decreases |keys|
  {
    if keys != [] {
      ContributionOfOtherKey(df, traceData, keys[..|keys| - 1], key);
    }
  }

  /** Headers already on the response keep their values as a prefix: composition only appends. */
  lemma ComposePreservesExisting(h: Headers, df: TraceabilityDatafill, traceData: map<string, string>, key: string)
    requires |df.listSeparator| > 0
    ensures key in h ==> key in Composed(h, df, traceData)
    ensures Values(h, key) <= Values(Composed(h, df, traceData), key)
  {
    ComposedEffect(h, df, traceData, key);
  }

  /**
   * A key that is not one of the four well-known keys, or that the trace data
   * does not hold, is left exactly as it was.
   */
  lemma ComposeLeavesOtherKeys(h: Headers, df: TraceabilityDatafill, traceData: map<string, string>, key: string)
    requires |df.listSeparator| > 0
    requires key !in WellKnownKeys(df) || key !in traceData
    ensures (key in Composed(h, df, traceData)) == (key in h)
    ensures Values(Composed(h, df, traceData), key) == Values(h, key)
  {
    ComposedEffect(h, df, traceData, key);
    ContributionOfOtherKey(df, traceData, WellKnownKeys(df), key);
  }

  /** The contributions of the four well-known keys, in their fixed order. */
  lemma ContributionOfWellKnownKeys(df: TraceabilityDatafill, traceData: map<string, string>, key: string)
    requires |df.listSeparator| > 0
    ensures Contribution(df, traceData, WellKnownKeys(df), key)
         == Piece(df, traceData, df.applicationId, key) + Piece(df, traceData, df.transactionId, key)
          + Piece(df, traceData, df.requestId, key) + Piece(df, traceData, df.duration, key)
  {
    var a, b, c, d := df.applicationId, df.transactionId, df.requestId, df.duration;
    assert [a][..0] == [];
    assert [a, b][..1] == [a];
    assert [a, b, c][..2] == [a, b];
    assert [a, b, c, d][..3] == [a, b, c];
    assert Contribution(df, traceData, [a], key) == Piece(df, traceData, a, key);
    assert Contribution(df, traceData, [a, b], key) == Contribution(df, traceData, [a], key) + Piece(df, traceData, b, key);
    assert Contribution(df, traceData, [a, b, c], key) == Contribution(df, traceData, [a, b], key) + Piece(df, traceData, c, key);
    assert Contribution(df, traceData, [a, b, c, d], key) == Contribution(df, traceData, [a, b, c], key) + Piece(df, traceData, d, key);
  }

  /**
   * With four different key names, a well-known key held by the trace data
   * gains exactly the pieces of its value, appended in split order.
   */
  lemma ComposeDistinctKeys(h: Headers, df: TraceabilityDatafill, traceData: map<string, string>, key: string)
    requires |df.listSeparator| > 0 && DistinctKeys(df)
    requires key in WellKnownKeys(df) && key in traceData
    ensures Values(Composed(h, df, traceData), key) == Values(h, key) + Split(traceData[key], df.listSeparator)
  {
    ComposedEffect(h, df, traceData, key);
    ContributionOfWellKnownKeys(df, traceData, key);
  }

  /** With a one-character separator, a key gains one value more than its value has separators. */
  lemma ComposeValueCount(h: Headers, df: TraceabilityDatafill, traceData: map<string, string>, key: string)
    requires |df.listSeparator| == 1 && DistinctKeys(df)
    requires key in WellKnownKeys(df) && key in traceData
    ensures |Values(Composed(h, df, traceData), key)| == |Values(h, key)| + multiset(traceData[key])[df.listSeparator[0]] + 1
  {
    ComposeDistinctKeys(h, df, traceData, key);
    assert df.listSeparator == [df.listSeparator[0]];
    SplitCountSingleChar(traceData[key], df.listSeparator[0]);
  }

  /** The lines are written key by key in the fixed order: application, transaction, request, duration. */
  lemma ComposeOrder(df: TraceabilityDatafill, traceData: map<string, string>)
    requires |df.listSeparator| > 0
    ensures LinesFor(df, traceData, WellKnownKeys(df))
         == LinesOfKey(df, traceData, df.applicationId) + LinesOfKey(df, traceData, df.transactionId)
          + LinesOfKey(df, traceData, df.requestId) + LinesOfKey(df, traceData, df.duration)
  {
    var a, b, c, d := df.applicationId, df.transactionId, df.requestId, df.duration;
    assert [a][..0] == [];
    assert [a, b][..1] == [a];
    assert [a, b, c][..2] == [a, b];
    assert [a, b, c, d][..3] == [a, b, c];
    assert LinesFor(df, traceData, [a]) == LinesOfKey(df, traceData, a);
    assert LinesFor(df, traceData, [a, b]) == LinesFor(df, traceData, [a]) + LinesOfKey(df, traceData, b);
    assert LinesFor(df, traceData, [a, b, c]) == LinesFor(df, traceData, [a, b]) + LinesOfKey(df, traceData, c);
    assert LinesFor(df, traceData, [a, b, c, d]) == LinesFor(df, traceData, [a, b, c]) + LinesOfKey(df, traceData, d);
  }

}
