/**
 * The keyword classifiers of the pipeline share one shape: a chain of
 * `if any(word in text for word in group): return label` tests in a fixed
 * order, followed by a default. A classifier is modelled here as a table
 * of (label, group) pairs read top to bottom.
 */
module Keywords {
  import opened Wrappers
  import opened Text

  /** Python's `any(word in text for word in words)`. */
  predicate AnyIn(words: seq<string>, text: string) {
    exists k :: 0 <= k < |words| && Contains(text, words[k])
  }

  /** Group `i` is the first group of the table with a word occurring in `text`. */
  ghost predicate FirstGroup<T>(table: seq<(T, seq<string>)>, text: string, i: nat) {
    i < |table| && AnyIn(table[i].1, text) && forall j :: 0 <= j < i ==> !AnyIn(table[j].1, text)
  }

  /** No group of the table has a word occurring in `text`. */
  ghost predicate NoGroup<T>(table: seq<(T, seq<string>)>, text: string) {
    forall j :: 0 <= j < |table| ==> !AnyIn(table[j].1, text)
  }

  /** The index of the first group at or after `from` with a word in `text`. */
  function FirstMatch<T>(table: seq<(T, seq<string>)>, text: string, from: nat): (r: Option<nat>)
    ensures r.Some? ==> from <= r.value < |table| && AnyIn(table[r.value].1, text)
    ensures r.Some? ==> forall j :: from <= j < r.value ==> !AnyIn(table[j].1, text)
    ensures r.None? ==> forall j :: from <= j < |table| ==> !AnyIn(table[j].1, text)
    decreases |table| - from
  {
    if from >= |table| then None
    else if AnyIn(table[from].1, text) then Some(from)
    else FirstMatch(table, text, from + 1)
  }

  /** The label of the first matching group, or `default` when no group matches. */
  function Classify<T>(table: seq<(T, seq<string>)>, default: T, text: string): (r: T)
    ensures forall i: nat :: FirstGroup(table, text, i) ==> r == table[i].0
    ensures NoGroup(table, text) ==> r == default
    ensures r == default || exists i: nat :: FirstGroup(table, text, i) && table[i].0 == r
  {
    match FirstMatch(table, text, 0)
    case Some(i) => table[i].0
    case None => default
  }

  /** A word of group `i` in the text, and no word of an earlier group, decides the label. */
  lemma ClassifyByWord<T>(table: seq<(T, seq<string>)>, default: T, text: string, i: nat, k: nat)
    requires i < |table| && k < |table[i].1| && Contains(text, table[i].1[k])
    requires forall j :: 0 <= j < i ==> !AnyIn(table[j].1, text)
    ensures Classify(table, default, text) == table[i].0
  {
    assert FirstGroup(table, text, i);
  }

  /** A word of the first group always wins, whatever else the text mentions. */
  lemma FirstGroupWins<T>(table: seq<(T, seq<string>)>, default: T, text: string, k: nat)
    requires |table| > 0 && k < |table[0].1| && Contains(text, table[0].1[k])
    ensures Classify(table, default, text) == table[0].0
  {
    assert FirstGroup(table, text, 0);
  }
}
