/** The pusher of src/main.rs: the gauge value it holds, and the sample line
    `name{k1="v1",...} value timestamp ` it builds for each push.

    Labels come as one flat list `[k1, v1, k2, v2, ...]`; keys and values
    are copied into the line verbatim, without any escaping. */
module Agent {
  import opened Basics
  import opened Decimal
  import opened Text

  /** One label as it appears in the block: `key="value"`. */
  function Pair(key: string, value: string): string {
    key + "=\"" + value + "\""
  }

  /** The label lists the encoder can index without going out of bounds:
      at least one key and value, and a value for every key. */
  predicate WellFormedLabels(labels: seq<string>) {
    |labels| >= 2 && |labels| % 2 == 0
  }

  /** The rendered pairs of a flat label list, in input order. */
  function Pairs(labels: seq<string>): (r: seq<string>)
    requires |labels| % 2 == 0
    ensures |r| == |labels| / 2
    ensures forall i :: 0 <= i < |r| ==> r[i] == Pair(labels[2 * i], labels[2 * i + 1])
  {
    seq(|labels| / 2, i requires 0 <= i < |labels| / 2 => Pair(labels[2 * i], labels[2 * i + 1]))
  }

  lemma PairsSnoc(labels: seq<string>, key: string, value: string)
    requires |labels| % 2 == 0
    ensures Pairs(labels + [key, value]) == Pairs(labels) + [Pair(key, value)]
  {
    var all := labels + [key, value];
    assert all[|labels|] == key && all[|labels| + 1] == value;
    assert forall i :: 0 <= i < |labels| / 2 ==> all[2 * i] == labels[2 * i] && all[2 * i + 1] == labels[2 * i + 1];
  }

  /** The text `labels_to_string` has built after the first `i` entries. */
  function BlockPrefix(labels: seq<string>, i: nat): string
    requires i <= |labels| && i % 2 == 0
  {
    "{" + Join(Pairs(labels[..i]), ",")
  }

  lemma BlockPrefixStart(labels: seq<string>)
    requires WellFormedLabels(labels)
    ensures BlockPrefix(labels, 2) == "{" + Pair(labels[0], labels[1])
  {
    assert labels[..2] == [] + [labels[0], labels[1]];
    PairsSnoc([], labels[0], labels[1]);
  }

  lemma BlockPrefixStep(labels: seq<string>, i: nat)
    requires 2 <= i && i + 2 <= |labels| && i % 2 == 0
    ensures BlockPrefix(labels, i + 2)
         == BlockPrefix(labels, i) + "," + Pair(labels[i], labels[i + 1])
  {
    assert labels[..i + 2] == labels[..i] + [labels[i], labels[i + 1]];
    PairsSnoc(labels[..i], labels[i], labels[i + 1]);
    JoinSnoc(Pairs(labels[..i]), ",", Pair(labels[i], labels[i + 1]));
  }

  lemma BlockPrefixEnd(labels: seq<string>)
    requires WellFormedLabels(labels)
    ensures BlockPrefix(labels, |labels|) + "}" == LabelBlock(labels)
  {
    assert labels[..|labels|] == labels;
  }

  /** The label block: every pair in input order, separated by commas, in
      braces. */
  function LabelBlock(labels: seq<string>): (r: string)
    requires WellFormedLabels(labels)
    ensures |r| >= 2 && r[0] == '{' && r[|r| - 1] == '}'
  {
    "{" + Join(Pairs(labels), ",") + "}"
  }

  class Pusher {
    /** The gauge. An atomic in the original, a plain field here. */
    var currV: u64

    /** `Default::default`: the gauge starts at zero. */
    constructor Default()
      ensures currV == 0
    {
      currV := 0;
    }

    /** `change_value`: stores the new gauge value; the last write wins. */
    method ChangeValue(value: u64)
      modifies this`currV
      ensures currV == value
    {
      currV := value;
    }

    /** `labels_to_string`: the brace, the first pair, then a comma and a
        pair for every further key and value, then the closing brace. */
    static method LabelsToString(labels: seq<string>) returns (s: string)
      requires WellFormedLabels(labels)
      ensures s == LabelBlock(labels)
    {
      s := "{";
      s := s + Pair(labels[0], labels[1]);
      BlockPrefixStart(labels);
      var i := 2;
      while i < |labels|
        invariant 2 <= i <= |labels| && i % 2 == 0
        invariant s == BlockPrefix(labels, i)
      {
        BlockPrefixStep(labels, i);
        s := s + "," + Pair(labels[i], labels[i + 1]);
        i := i + 2;
      }
      BlockPrefixEnd(labels);
      s := s + "}";
    }

    /** `push_metrics`: name, label block, value, timestamp, each of the
        last two after one space, and one space at the end. */
    static function PushMetrics(name: string, labels: seq<string>, ts: u64, value: u64): (r: string)
      requires WellFormedLabels(labels)
      ensures |r| >= 2 && r[|r| - 1] == ' ' && r[|r| - 2] != ' '
    {
      var t := ToDecimal(ts);
      assert IsDigitChar(t[|t| - 1]);
      name + LabelBlock(labels) + " " + ToDecimal(value) + " " + t + " "
    }

    /** The line one tick of the push loop sends at clock reading `now`:
        metric `test`, the one label `k="V"`, the current gauge value. */
    function TickLine(now: u64): (r: string)
      reads this
      ensures r == "test{k=\"V\"} " + ToDecimal(currV) + " " + ToDecimal(now) + " "
    {
      assert Join(Pairs(["k", "V"]), ",") == Pair("k", "V");
      PushMetrics("test", ["k", "V"], now, currV)
    }
  }

  /** Two writes in a row: a read after them sees the second value. */
  method LastWriteWins(p: Pusher, first: u64, second: u64, now: u64) returns (line: string)
    modifies p
    ensures p.currV == second
    ensures line == p.TickLine(now)
  {
    p.ChangeValue(first);
    p.ChangeValue(second);
    line := p.TickLine(now);
  }

  // -----------------------------------------------------------------------
  // Reading an encoded line back
  // -----------------------------------------------------------------------

  /** Splits a sample line into its series text (name and label block), its
      value and its timestamp, reading the two numbers from the end. */
  function DecodeSample(line: string): Option<(string, u64, u64)> {
    if line == [] || line[|line| - 1] != ' ' then None
    else match SplitLast(line[..|line| - 1], ' ')
      case None => None
      case Some((rest, tsText)) =>
        match SplitLast(rest, ' ')
        case None => None
        case Some((series, valueText)) =>
          if AllDigits(valueText) && AllDigits(tsText)
             && DigitsValue(valueText) < U64_MODULUS && DigitsValue(tsText) < U64_MODULUS
          then Some((series, DigitsValue(valueText) as u64, DigitsValue(tsText) as u64))
          else None
  }

  /** `push_metrics` puts the value before the timestamp and ends the line
      with a space: reading from the end recovers both numbers and the
      series text, whatever the name and labels hold. */
  lemma SampleRoundTrip(name: string, labels: seq<string>, ts: u64, value: u64)
    requires WellFormedLabels(labels)
    ensures DecodeSample(Pusher.PushMetrics(name, labels, ts, value))
         == Some((name + LabelBlock(labels), value, ts))
  {
    var series := name + LabelBlock(labels);
    var v, t := ToDecimal(value), ToDecimal(ts);
    var line := Pusher.PushMetrics(name, labels, ts, value);
    assert line == series + " " + v + " " + t + " ";
    assert line[..|line| - 1] == (series + " " + v) + [' '] + t;
    DigitsAvoid(t, ' ');
    SplitLastAppend(series + " " + v, ' ', t);
    assert series + " " + v == series + [' '] + v;
    DigitsAvoid(v, ' ');
    SplitLastAppend(series, ' ', v);
  }

  /** A pushed line holds no line break as long as the name and the labels
      hold none. */
  lemma SampleLineShape(name: string, labels: seq<string>, ts: u64, value: u64)
    requires WellFormedLabels(labels)
    requires '\n' !in name
    requires forall i :: 0 <= i < |labels| ==> '\n' !in labels[i]
    ensures '\n' !in Pusher.PushMetrics(name, labels, ts, value)
  {
    var items := Pairs(labels);
    forall i | 0 <= i < |items| ensures '\n' !in items[i] {
      assert items[i] == labels[2 * i] + "=\"" + labels[2 * i + 1] + "\"";
    }
    JoinAvoids(items, ",", '\n');
    DigitsAvoid(ToDecimal(value), '\n');
    DigitsAvoid(ToDecimal(ts), '\n');
  }

  lemma DigitsAvoid(s: string, c: char)
    requires AllDigits(s) && !IsDigitChar(c)
    ensures c !in s
  {
  }

  /** Reads one `key="value"` back, splitting at the last `=`. */
  function DecodePair(p: string): Option<(string, string)> {
    match SplitLast(p, '=')
    case None => None
    case Some((key, quoted)) =>
      if |quoted| >= 2 && quoted[0] == '"' && quoted[|quoted| - 1] == '"'
      then Some((key, quoted[1..|quoted| - 1]))
      else None
  }

  function DecodePairs(items: seq<string>): Option<seq<string>>
    decreases |items|
  {
    if items == [] then Some([])
    else match DecodePairs(items[..|items| - 1])
      case None => None
      case Some(init) =>
        match DecodePair(items[|items| - 1])
        case None => None
        case Some((key, value)) => Some(init + [key, value])
  }

  /** Reads a label block back into the flat list it was made from. */
  function DecodeLabels(block: string): Option<seq<string>> {
    if |block| >= 2 && block[0] == '{' && block[|block| - 1] == '}'
    then DecodePairs(SplitAll(block[1..|block| - 1], ','))
    else None
  }

  /** The label lists a block can be read back from: no comma in any key or
      value, and no `=` in any value (quotes and braces are fine). */
  predicate Recoverable(labels: seq<string>) {
    (forall i :: 0 <= i < |labels| ==> ',' !in labels[i])
    && (forall i :: 0 <= i < |labels| && i % 2 == 1 ==> '=' !in labels[i])
  }

  lemma DecodePairOf(key: string, value: string)
    requires '=' !in value
    ensures DecodePair(Pair(key, value)) == Some((key, value))
  {
    var quoted := "\"" + value + "\"";
    assert |quoted| == |value| + 2 && quoted[0] == '"' && quoted[|quoted| - 1] == '"';
    assert quoted[1..|quoted| - 1] == value;
    assert '=' !in quoted;
    assert Pair(key, value) == key + ['='] + quoted;
    SplitLastAppend(key, '=', quoted);
  }

  lemma {:induction false} DecodePairsOf(labels: seq<string>)
    requires |labels| % 2 == 0 && Recoverable(labels)
    ensures DecodePairs(Pairs(labels)) == Some(labels)
    decreases |labels|
  {
    if labels == [] {
      assert Pairs(labels) == [];
    } else {
      var n := |labels|;
      var init := labels[..n - 2];
      RecoverableSplit(labels);
      PairsSnoc(init, labels[n - 2], labels[n - 1]);
      assert labels == init + [labels[n - 2], labels[n - 1]];
      var items := Pairs(labels);
      assert items[..|items| - 1] == Pairs(init);
      DecodePairsOf(init);
      DecodePairOf(labels[n - 2], labels[n - 1]);
    }
  }

  /** Dropping the last key and value keeps a list recoverable, and that
      last value holds no `=`. */
  lemma RecoverableSplit(labels: seq<string>)
    requires |labels| >= 2 && |labels| % 2 == 0 && Recoverable(labels)
    ensures Recoverable(labels[..|labels| - 2])
    ensures '=' !in labels[|labels| - 1]
  {
    var n := |labels|;
    assert (n - 1) % 2 == 1;
    var init := labels[..n - 2];
    assert forall i :: 0 <= i < |init| ==> init[i] == labels[i];
  }

  /** Between its braces, the block splits at its commas into exactly one
      `key="value"` text per key and value, in input order, when no key or
      value holds a comma. */
  lemma LabelBlockPairs(labels: seq<string>)
    requires WellFormedLabels(labels)
    requires forall i :: 0 <= i < |labels| ==> ',' !in labels[i]
    ensures var block := LabelBlock(labels);
      var parts := SplitAll(block[1..|block| - 1], ',');
      |parts| == |labels| / 2
      && forall i :: 0 <= i < |parts| ==> parts[i] == labels[2 * i] + "=\"" + labels[2 * i + 1] + "\""
  {
    var items := Pairs(labels);
    forall i | 0 <= i < |items| ensures ',' !in items[i] {
      assert items[i] == labels[2 * i] + "=\"" + labels[2 * i + 1] + "\"";
    }
    var block := LabelBlock(labels);
    assert block[1..|block| - 1] == Join(items, ",");
    SplitAllJoin(items, ',');
  }

  /** The label block is read back into exactly the list it was made from:
      the pairs keep their order and their text. */
  lemma LabelsRoundTrip(labels: seq<string>)
    requires WellFormedLabels(labels) && Recoverable(labels)
    ensures DecodeLabels(LabelBlock(labels)) == Some(labels)
  {
    var items := Pairs(labels);
    forall i | 0 <= i < |items| ensures ',' !in items[i] {
      assert items[i] == labels[2 * i] + "=\"" + labels[2 * i + 1] + "\"";
    }
    var block := LabelBlock(labels);
    assert block[1..|block| - 1] == Join(items, ",");
    SplitAllJoin(items, ',');
    DecodePairsOf(labels);
  }

  /** With no comma in the labels, the block holds one comma less than it
      holds pairs: exactly the separators. */
  lemma LabelBlockCommas(labels: seq<string>)
    requires WellFormedLabels(labels)
    requires forall i :: 0 <= i < |labels| ==> ',' !in labels[i]
    ensures Count(LabelBlock(labels), ',') == |labels| / 2 - 1
  {
    var items := Pairs(labels);
    forall i | 0 <= i < |items| ensures Count(items[i], ',') == 0 {
      PairCommas(labels[2 * i], labels[2 * i + 1]);
    }
    var n := |items|;
    assert LabelBlock(labels) == "{" + Join(items, ",") + "}";
    assert Count(",", ',') == 1;
    BracedCount(items, ',', 0);
    assert 0 * n + 1 * (n - 1) == n - 1;
  }

  /** With no quote in the labels, the block holds two quotes per pair. */
  lemma LabelBlockQuotes(labels: seq<string>)
    requires WellFormedLabels(labels)
    requires forall i :: 0 <= i < |labels| ==> '"' !in labels[i]
    ensures Count(LabelBlock(labels), '"') == 2 * (|labels| / 2)
  {
    var items := Pairs(labels);
    forall i | 0 <= i < |items| ensures Count(items[i], '"') == 2 {
      PairQuotes(labels[2 * i], labels[2 * i + 1]);
    }
    var n := |items|;
    assert LabelBlock(labels) == "{" + Join(items, ",") + "}";
    assert Count(",", '"') == 0;
    BracedCount(items, '"', 2);
    assert 2 * n + 0 * (n - 1) == 2 * n;
  }

  lemma BracedCount(items: seq<string>, c: char, k: nat)
    requires |items| >= 1 && c != '{' && c != '}'
    requires forall i :: 0 <= i < |items| ==> Count(items[i], c) == k
    ensures Count("{" + Join(items, ",") + "}", c) == k * |items| + Count(",", c) * (|items| - 1)
  {
    var j := Join(items, ",");
    CountJoin(items, ",", c, k);
    CountConcat("{" + j, "}", c);
    CountConcat("{", j, c);
    assert Count("{", c) == 0 && Count("}", c) == 0;
  }

  lemma PairCommas(key: string, value: string)
    requires ',' !in key && ',' !in value
    ensures Count(Pair(key, value), ',') == 0
  {
    CountAbsent(key, ',');
    CountAbsent(value, ',');
    CountConcat(key + "=\"" + value, "\"", ',');
    CountConcat(key + "=\"", value, ',');
    CountConcat(key, "=\"", ',');
  }

  lemma PairQuotes(key: string, value: string)
    requires '"' !in key && '"' !in value
    ensures Count(Pair(key, value), '"') == 2
  {
    CountAbsent(key, '"');
    CountAbsent(value, '"');
    CountConcat(key + "=\"" + value, "\"", '"');
    CountConcat(key + "=\"", value, '"');
    CountConcat(key, "=\"", '"');
  }
}
