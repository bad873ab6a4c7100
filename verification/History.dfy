/** Histories of the label table: after any sequence of insertions every key has the first value
    inserted for it, whatever the hash function. */
module History {
  import opened Words
  import opened Syntax
  import opened Buckets
  import opened LabelTable

  /** The map a sequence of insertions leaves. */
  function FirstValues(history: seq<Pair>): map<string, nat>
    decreases |history|
  {
    if history == [] then map[]
    else
      var before, last := FirstValues(history[..|history| - 1]), history[|history| - 1];
      if last.0 in before then before else before[last.0 := last.1]
  }

  /** A key is in the map if it was inserted, with the value of its first insertion: i is that
      insertion, or the length of the history if there is none. */
  lemma {:induction false} FirstValue(history: seq<Pair>, k: string) returns (i: nat)
    ensures i <= |history| && forall j :: 0 <= j < i ==> history[j].0 != k
    ensures i < |history| ==> history[i].0 == k && Entry(FirstValues(history), k) == Some(history[i].1)
    ensures i == |history| ==> Entry(FirstValues(history), k) == None
    decreases |history|
  {
    i := 0;
    if history != [] {
      var before := history[..|history| - 1];
      i := FirstValue(before, k);
      if i == |before| && history[i].0 != k {
        i := i + 1;
      }
    }
  }

  /** Inserting a whole history: the table holds the first values, its length is the number of
      distinct keys, at most one more than three quarters of its capacity, which is 16 times a
      power of two. */
  method InsertAll(hash: string -> nat, history: seq<Pair>) returns (m: LabelMap)
    ensures fresh(m) && m.Valid() && m.contents == FirstValues(history)
    ensures m.len == |FirstValues(history)| <= m.capacity / 4 * 3 + 1
    ensures PowerCapacity(m.capacity)
  {
    hide *;
    StartCapacity();
    m := new LabelMap.WithCapacity(hash, DEFAULT_CAPACITY);
    NoValues();
    assert history[..0] == [];
    for i := 0 to |history|
      invariant fresh(m) && m.Valid() && m.Exact() && m.contents == FirstValues(history[..i])
    {
      NextValue(history, i);
      var inserted := m.Insert(history[i].0, history[i].1);
    }
    assert history[..|history|] == history;
    m.ValidParts();
    m.ExactLen();
  }

  lemma StartCapacity()
    ensures PowerCapacity(DEFAULT_CAPACITY) && DEFAULT_CAPACITY > 0
  {
    assert DEFAULT_CAPACITY == DEFAULT_CAPACITY * Pow2(0);
  }

  lemma NoValues()
    ensures FirstValues([]) == map[]
  {
  }

  lemma NextValue(history: seq<Pair>, i: nat)
    requires i < |history|
    ensures var before := FirstValues(history[..i]);
            FirstValues(history[..i + 1])
              == if history[i].0 in before then before else before[history[i].0 := history[i].1]
  {
    assert history[..i + 1][..i] == history[..i];
  }
}
