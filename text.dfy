/** String helpers for the exposition line: joining with a separator, and
    the splitting and counting used to read an encoded line back. */
module Text {
  import opened Basics

  /** `items` in order, with `sep` between neighbours (none before the
      first, none after the last). */
  function Join(items: seq<string>, sep: string): string
    decreases |items|
  {
    if |items| == 0 then ""
    else if |items| == 1 then items[0]
    else Join(items[..|items| - 1], sep) + sep + items[|items| - 1]
  }

  lemma JoinSnoc(items: seq<string>, sep: string, last: string)
    requires |items| >= 1
    ensures Join(items + [last], sep) == Join(items, sep) + sep + last
  {
    assert (items + [last])[..|items|] == items;
  }

  /** A character that is in no item and not in the separator is not in
      the joined string. */
  lemma {:induction false} JoinAvoids(items: seq<string>, sep: string, c: char)
    requires c !in sep
    requires forall i :: 0 <= i < |items| ==> c !in items[i]
    ensures c !in Join(items, sep)
    decreases |items|
  {
    if |items| > 1 {
      var init := items[..|items| - 1];
      assert forall i :: 0 <= i < |init| ==> init[i] == items[i];
      JoinAvoids(init, sep, c);
    }
  }

  /** Splits `s` at the LAST occurrence of `c`: the text before it and the
      text after it; `None` when `c` does not occur. */
  function SplitLast(s: string, c: char): (r: Option<(string, string)>)
    ensures r.None? <==> c !in s
    ensures r.Some? ==> s == r.value.0 + [c] + r.value.1 && c !in r.value.1
    decreases |s|
  {
    if s == [] then None
    else if s[|s| - 1] == c then Some((s[..|s| - 1], []))
    else
      var init := s[..|s| - 1];
      assert s == init + [s[|s| - 1]];
      match SplitLast(init, c)
      case None => None
      case Some((before, after)) => Some((before, after + [s[|s| - 1]]))
  }

  lemma {:induction false} SplitLastAppend(before: string, c: char, after: string)
    requires c !in after
    ensures SplitLast(before + [c] + after, c) == Some((before, after))
    decreases |after|
  {
    var s := before + [c] + after;
    if after == [] {
      assert s[..|s| - 1] == before;
    } else {
      var init := after[..|after| - 1];
      assert s[..|s| - 1] == before + [c] + init;
      assert after == init + [after[|after| - 1]];
      SplitLastAppend(before, c, init);
    }
  }

  /** All the pieces of `s` between occurrences of `c`, in order. */
  function SplitAll(s: string, c: char): (r: seq<string>)
    ensures |r| >= 1
    decreases |s|
  {
    match SplitLast(s, c)
    case None => [s]
    case Some((before, after)) => SplitAll(before, c) + [after]
  }

  /** Splitting undoes joining, as long as the separator occurs in no item. */
  lemma {:induction false} SplitAllJoin(items: seq<string>, c: char)
    requires |items| >= 1
    requires forall i :: 0 <= i < |items| ==> c !in items[i]
    ensures SplitAll(Join(items, [c]), c) == items
    decreases |items|
  {
    if |items| == 1 {
      assert Join(items, [c]) == items[0];
    } else {
      var init := items[..|items| - 1];
      var last := items[|items| - 1];
      assert items == init + [last];
      JoinSnoc(init, [c], last);
      assert Join(items, [c]) == Join(init, [c]) + [c] + last;
      SplitLastAppend(Join(init, [c]), c, last);
      SplitAllJoin(init, c);
    }
  }

  function Count(s: string, c: char): nat
    decreases |s|
  {
    if s == [] then 0
    else Count(s[..|s| - 1], c) + (if s[|s| - 1] == c then 1 else 0)
  }

  lemma {:induction false} CountConcat(a: string, b: string, c: char)
    ensures Count(a + b, c) == Count(a, c) + Count(b, c)
    decreases |b|
  {
    if b == [] {
      assert a + b == a;
    } else {
      var init := b[..|b| - 1];
      assert (a + b)[..|a + b| - 1] == a + init;
      CountConcat(a, init, c);
    }
  }

  lemma {:induction false} CountAbsent(s: string, c: char)
    ensures Count(s, c) == 0 <==> c !in s
    decreases |s|
  {
    if s != [] {
      var init := s[..|s| - 1];
      assert s == init + [s[|s| - 1]];
      CountAbsent(init, c);
    }
  }

  /** Counting `c` in a joined string: what each item holds plus what each
      of the `|items| - 1` separators holds. */
  lemma {:induction false} CountJoin(items: seq<string>, sep: string, c: char, k: nat)
    requires |items| >= 1
    requires forall i :: 0 <= i < |items| ==> Count(items[i], c) == k
    ensures Count(Join(items, sep), c) == k * |items| + Count(sep, c) * (|items| - 1)
    decreases |items|
  {
    if |items| > 1 {
      var init := items[..|items| - 1];
      var last := items[|items| - 1];
      assert items == init + [last];
      assert forall i :: 0 <= i < |init| ==> init[i] == items[i];
      var head := Join(init, sep);
      var n, m := |init|, Count(sep, c);
      CountJoin(init, sep, c, k);
      JoinSnoc(init, sep, last);
      assert Join(items, sep) == (head + sep) + last;
      CountConcat(head + sep, last, c);
      CountConcat(head, sep, c);
      assert Count(last, c) == k;
      MulStep(k, m, n);
    }
  }

  lemma MulStep(k: nat, m: nat, n: nat)
    requires n >= 1
    ensures k * n + m * (n - 1) + m + k == k * (n + 1) + m * n
  {
  }
}
