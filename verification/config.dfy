/**
  The hook list: `String.Split(';', StringSplitOptions.RemoveEmptyEntries)`
  over the configured value, and its inverse `Join`.
*/
module Config {

  const Separator: char := ';'

  /** A list entry as the split yields it: non-empty, without a separator. */
  predicate IsEntry(e: string)
  {
    e != [] && Separator !in e
  }

  /** The characters of `s` other than separators, in order. */
  function Unseparated(s: string): string
  {
    if s == [] then []
    else (if s[0] == Separator then [] else [s[0]]) + Unseparated(s[1..])
  }

  function Concat(parts: seq<string>): string
  {
    if parts == [] then [] else parts[0] + Concat(parts[1..])
  }

  /** The entries joined with single separators. */
  function Join(parts: seq<string>): string
  {
    if |parts| == 0 then []
    else if |parts| == 1 then parts[0]
    else parts[0] + [Separator] + Join(parts[1..])
  }

  /**
    Scans `s`, with `pending` the separator-free text read since the last
    separator; an empty run between separators yields no entry.
  */
  function SplitFrom(s: string, pending: string): (r: seq<string>)
    requires Separator !in pending
    ensures forall i :: 0 <= i < |r| ==> IsEntry(r[i])
    ensures Concat(r) == pending + Unseparated(s)
    decreases |s|
  {
    if s == [] then
      if pending == [] then [] else [pending]
    else if s[0] == Separator then
      var rest := SplitFrom(s[1..], []);
      assert Unseparated(s) == Unseparated(s[1..]);
      var head := if pending == [] then [] else [pending];
      assert Concat(head + rest) == pending + Concat(rest) by {
        if pending != [] { assert (head + rest)[1..] == rest; } else { assert head + rest == rest; }
      }
      head + rest
    else
      var rest := SplitFrom(s[1..], pending + [s[0]]);
      assert Unseparated(s) == [s[0]] + Unseparated(s[1..]);
      rest
  }

  /**
    `Split(s)`: the maximal separator-free runs of `s`, empty ones dropped.
    Every entry is non-empty and separator-free, and together they hold every
    other character of `s`, in order.
  */
  function Split(s: string): (r: seq<string>)
    ensures forall i :: 0 <= i < |r| ==> IsEntry(r[i])
    ensures Concat(r) == Unseparated(s)
  {
    SplitFrom(s, [])
  }

  lemma {:induction false} ConcatEmpty(parts: seq<string>)
    requires forall i :: 0 <= i < |parts| ==> IsEntry(parts[i])
    ensures Concat(parts) == [] <==> parts == []
  {
    if parts != [] {
      assert IsEntry(parts[0]);
    }
  }

  lemma {:induction false} UnseparatedEmpty(s: string)
    ensures Unseparated(s) == [] <==> forall i :: 0 <= i < |s| ==> s[i] == Separator
  {
    if s != [] {
      UnseparatedEmpty(s[1..]);
      assert forall i :: 0 < i < |s| ==> s[i] == s[1..][i - 1];
    }
  }

  /** A value made only of separators (in particular the empty value) lists no entry. */
  lemma SplitNothing(s: string)
    ensures Split(s) == [] <==> forall i :: 0 <= i < |s| ==> s[i] == Separator
  {
    ConcatEmpty(Split(s));
    UnseparatedEmpty(s);
  }

  lemma {:induction false} SplitSkipsRun(w: string, t: string, pending: string)
    requires Separator !in w && Separator !in pending
    ensures SplitFrom(w + t, pending) == SplitFrom(t, pending + w)
    decreases |w|
  {
    if w == [] {
      assert pending + w == pending && w + t == t;
    } else {
      assert (w + t)[0] == w[0];
      assert (w + t)[1..] == w[1..] + t;
      SplitSkipsRun(w[1..], t, pending + [w[0]]);
      assert pending + [w[0]] + w[1..] == pending + w;
    }
  }

  lemma {:induction false} SplitFromSeparator(s: string, t: string, pending: string)
    requires Separator !in pending
    ensures SplitFrom(s + [Separator] + t, pending) == SplitFrom(s, pending) + SplitFrom(t, [])
    decreases |s|
  {
    if s == [] {
      assert s + [Separator] + t == [Separator] + t;
      assert ([Separator] + t)[1..] == t;
    } else {
      assert (s + [Separator] + t)[0] == s[0];
      assert (s + [Separator] + t)[1..] == s[1..] + [Separator] + t;
      if s[0] == Separator {
        SplitFromSeparator(s[1..], t, []);
      } else {
        SplitFromSeparator(s[1..], t, pending + [s[0]]);
      }
    }
  }

  /**
    Every separator is an entry boundary: the entries of `s;t` are those of
    `s` followed by those of `t`. Leading, trailing and doubled separators
    therefore contribute no entry.
  */
  lemma SplitSeparator(s: string, t: string)
    ensures Split(s + [Separator] + t) == Split(s) + Split(t)
  {
    SplitFromSeparator(s, t, []);
  }

  /** A separator-free run is one entry, or none when it is empty. */
  lemma SplitRun(w: string)
    requires Separator !in w
    ensures Split(w) == (if w == [] then [] else [w])
  {
    SplitSkipsRun(w, [], []);
    assert w + [] == w && [] + w == w;
  }

  /** Splitting a joined list of entries gives back exactly that list. */
  lemma {:induction false} SplitJoin(parts: seq<string>)
    requires forall i :: 0 <= i < |parts| ==> IsEntry(parts[i])
    ensures Split(Join(parts)) == parts
  {
    if |parts| == 1 {
      assert parts[0] + [] == parts[0] && [] + parts[0] == parts[0];
      SplitSkipsRun(parts[0], [], []);
      assert IsEntry(parts[0]);
    } else if |parts| > 1 {
      var tail := parts[1..];
      assert IsEntry(parts[0]);
      SplitJoin(tail);
      var j := Join(parts);
      assert j == parts[0] + ([Separator] + Join(tail));
      SplitSkipsRun(parts[0], [Separator] + Join(tail), []);
      assert ([Separator] + Join(tail))[1..] == Join(tail);
      assert [] + parts[0] == parts[0];
      assert Split(j) == [parts[0]] + Split(Join(tail));
      assert parts == [parts[0]] + tail;
    }
  }

}
