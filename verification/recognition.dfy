/** `recognize`: the labelled ground truth is matched against the pattern
    table by token sequence, and every stored pattern that appears in it takes
    over its label. */
module Recognition {
  import opened PatternTable

  /** One ground-truth entry: a token sequence and its quality label. */
  datatype Truth = Truth(tokens: seq<int>, classLabel: int)

  /** The positions below `n` whose entry names a stored pattern. */
  function Matched(t: Table, truth: seq<Truth>, n: nat): set<int>
    requires n <= |truth|
  {
    set k | 0 <= k < n && truth[k].tokens in t.index
  }

  /** Entry `k` is the last entry below `n` that names `s`. */
  predicate LastMatch(truth: seq<Truth>, n: nat, s: seq<int>, k: int)
    requires n <= |truth|
  {
    && 0 <= k < n
    && truth[k].tokens == s
    && forall j :: k < j < n ==> truth[j].tokens != s
  }

  /** Pattern `i` after the entries below `n` were applied: named by some
      entry, it carries the label of the last such entry; otherwise it keeps
      its label. Nothing but the label differs. */
  ghost predicate LabelApplied(t: Table, truth: seq<Truth>, n: nat, t': Table, i: int)
    requires n <= |truth| && 0 <= i < |t.patterns| && i < |t'.patterns|
  {
    && t'.patterns[i] == t.patterns[i].(classLabel := t'.patterns[i].classLabel)
    && (|| (exists k :: LastMatch(truth, n, t.patterns[i].tokens, k)
                       && t'.patterns[i].classLabel == truth[k].classLabel)
        || ((forall k :: 0 <= k < n ==> truth[k].tokens != t.patterns[i].tokens)
            && t'.patterns[i].classLabel == t.patterns[i].classLabel))
  }

  /** The table after the entries below `n` were applied: same lookup, same
      number of records, and every record relabelled as `LabelApplied` says. */
  ghost predicate Relabelled(t: Table, truth: seq<Truth>, n: nat, t': Table)
    requires n <= |truth|
  {
    && t'.index == t.index
    && |t'.patterns| == |t.patterns|
    && forall i :: 0 <= i < |t.patterns| ==> LabelApplied(t, truth, n, t', i)
  }

  /** `recognize`: returns the relabelled table and the number of entries
      that name a stored pattern (an entry is counted each time it occurs). */
  method Recognize(t: Table, truth: seq<Truth>) returns (t': Table, count: nat)
    requires WellIndexed(t)
    ensures Relabelled(t, truth, |truth|, t')
    ensures count == |Matched(t, truth, |truth|)|
    ensures count <= |truth|
    ensures WellIndexed(t')
  {
    t' := t;
    count := 0;
    var i := 0;
    while i < |truth|
      invariant 0 <= i <= |truth|
      invariant Relabelled(t, truth, i, t')
      invariant count == |Matched(t, truth, i)| && count <= i
    {
      var hit;
      t', hit := Apply(t, truth, i, t');
      MatchedStep(t, truth, i);
      if hit {
        count := count + 1;
      }
      i := i + 1;
    }
    RelabelledWellIndexed(t, truth, |truth|, t');
  }

  /** Relabelling keeps the lookup and the records in agreement. */
  lemma RelabelledWellIndexed(t: Table, truth: seq<Truth>, n: nat, t': Table)
    requires WellIndexed(t) && n <= |truth| && Relabelled(t, truth, n, t')
    ensures WellIndexed(t')
  {
    forall i | 0 <= i < |t.patterns|
      ensures t'.patterns[i].tokens == t.patterns[i].tokens
    {
      assert LabelApplied(t, truth, n, t', i);
    }
  }

  /** One iteration: entry `n` relabels the pattern it names, if any. */
  method Apply(t: Table, truth: seq<Truth>, n: nat, before: Table) returns (after: Table, hit: bool)
    requires WellIndexed(t) && n < |truth| && Relabelled(t, truth, n, before)
    ensures Relabelled(t, truth, n + 1, after)
    ensures hit <==> truth[n].tokens in t.index
  {
    var entry := truth[n];
    hit := entry.tokens in before.index;
    if hit {
      var id := before.index[entry.tokens];
      after := before.(patterns := before.patterns[id := before.patterns[id].(classLabel := entry.classLabel)]);
      StepLabels(t, truth, n, before, after, id);
    } else {
      after := before;
      StepLabels(t, truth, n, before, after, -1);
    }
  }

  /** Entry `n` joins the matched positions exactly when it names a stored pattern. */
  lemma MatchedStep(t: Table, truth: seq<Truth>, n: nat)
    requires n < |truth|
    ensures |Matched(t, truth, n + 1)| == |Matched(t, truth, n)| + if truth[n].tokens in t.index then 1 else 0
  {
    var before, after := Matched(t, truth, n), Matched(t, truth, n + 1);
    var added := if truth[n].tokens in t.index then {n} else {};
    assert n !in before;
    forall k | k in after
      ensures k in before + added
    {
      if k < n {
        assert k in before;
      }
    }
    assert before + added <= after;
    assert after == before + added;
  }

  /** Applying entry `n` to a table relabelled up to `n` relabels it up to
      `n + 1`: `id` is the pattern the entry names, or -1 when none. */
  lemma StepLabels(t: Table, truth: seq<Truth>, n: nat, before: Table, after: Table, id: int)
    requires WellIndexed(t) && n < |truth|
    requires Relabelled(t, truth, n, before)
    requires id == -1 ==> truth[n].tokens !in t.index && after == before
    requires id != -1 ==>
      && truth[n].tokens in t.index && id == t.index[truth[n].tokens]
      && after == before.(patterns := before.patterns[id := before.patterns[id].(classLabel := truth[n].classLabel)])
    ensures Relabelled(t, truth, n + 1, after)
  {
    var next := n + 1;
    forall i | 0 <= i < |t.patterns|
      ensures LabelApplied(t, truth, next, after, i)
    {
      assert LabelApplied(t, truth, n, before, i);
      var s := t.patterns[i].tokens;
      if i == id {
        assert LastMatch(truth, n + 1, s, n);
      } else {
        assert truth[n].tokens != s;
        if exists k :: LastMatch(truth, n, s, k) && before.patterns[i].classLabel == truth[k].classLabel {
          var k :| LastMatch(truth, n, s, k) && before.patterns[i].classLabel == truth[k].classLabel;
          assert LastMatch(truth, n + 1, s, k);
        }
      }
    }
  }
}
