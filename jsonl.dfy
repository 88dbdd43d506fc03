/**
 * The audit log as the sequence of appends the service issues, the text
 * each partition file then holds, and how that text reads back as JSON Lines.
 */
module JsonLines {
  import opened Wrappers
  import opened Records
  import opened Json
  import opened LogFiles

  /** One `fs.appendFile(path, data)` request. */
  datatype LogAppend = LogAppend(path: LogPath, data: string)

  /** What the partition at `p` holds after the appends of `log`, in order. */
  function Content(log: seq<LogAppend>, p: LogPath): string {
    if |log| == 0 then ""
    else
      var last := log[|log| - 1];
      Content(log[..|log| - 1], p) + (if last.path == p then last.data else "")
  }

  /** The text before the first '\n' of `s`, or all of `s` when it has none. */
  function FirstLine(s: string): (l: string)
    ensures '\n' !in l
  {
    if |s| == 0 || s[0] == '\n' then [] else [s[0]] + FirstLine(s[1..])
  }

  /** The text after the first '\n' of `s`, or nothing when it has none. */
  function AfterFirstLine(s: string): (r: string)
    ensures |s| > 0 ==> |r| < |s|
  {
    if |s| == 0 then []
    else if s[0] == '\n' then s[1..]
    else AfterFirstLine(s[1..])
  }

  /** Splits text into lines, each ended by '\n'; a final unterminated rest is a line too. */
  function Lines(s: string): seq<string>
    decreases |s|
  {
    if |s| == 0 then [] else [FirstLine(s)] + Lines(AfterFirstLine(s))
  }

  /** Text that `Lines` reads as whole lines: empty, or ending in '\n'. */
  predicate Terminated(s: string) {
    |s| == 0 || s[|s| - 1] == '\n'
  }

  /** A newline-free line, its newline and more text split after that line. */
  lemma {:induction false} SplitAtNewline(l: string, r: string)
    requires '\n' !in l
    ensures FirstLine(l + "\n" + r) == l
    ensures AfterFirstLine(l + "\n" + r) == r
  {
    var t := l + "\n" + r;
    if |l| == 0 {
      assert t == "\n" + r;
      assert t[1..] == r;
    } else {
      assert t[0] == l[0];
      assert t[1..] == l[1..] + "\n" + r;
      SplitAtNewline(l[1..], r);
      assert [l[0]] + l[1..] == l;
    }
  }

  /** Non-empty terminated text is its first line, a newline and terminated rest. */
  lemma {:induction false} TerminatedSplit(s: string)
    requires Terminated(s) && |s| > 0
    ensures s == FirstLine(s) + "\n" + AfterFirstLine(s)
    ensures Terminated(AfterFirstLine(s))
  {
    if s[0] == '\n' {
      var r := s[1..];
      assert |r| > 0 ==> r[|r| - 1] == s[|s| - 1];
      assert s == [] + "\n" + r;
    } else {
      var t := s[1..];
      assert t[|t| - 1] == s[|s| - 1];
      TerminatedSplit(t);
      var l := FirstLine(t);
      assert t == l + "\n" + AfterFirstLine(t);
      assert s == [s[0]] + t;
      Assoc([s[0]], l, "\n");
      Assoc([s[0]], l + "\n", AfterFirstLine(t));
    }
  }

  /** A line in front of two runs of lines. */
  lemma ConsAssoc(l: string, x: seq<string>, y: seq<string>)
    ensures [l] + (x + y) == ([l] + x) + y
  {
  }

  /** Lines of terminated text followed by more text: the lines of each, in order. */
  lemma {:induction false} LinesAppend(s: string, u: string)
    requires Terminated(s)
    ensures Lines(s + u) == Lines(s) + Lines(u)
    decreases |s|
  {
    if |s| == 0 {
      assert s + u == u;
    } else {
      TerminatedSplit(s);
      var l, r := FirstLine(s), AfterFirstLine(s);
      Assoc(l + "\n", r, u);
      SplitAtNewline(l, r + u);
      assert Lines(s + u) == [l] + Lines(r + u);
      LinesAppend(r, u);
      ConsAssoc(l, Lines(r), Lines(u));
    }
  }

  /** One newline-free line and its newline read as that line. */
  lemma OneLine(l: string)
    requires '\n' !in l
    ensures Lines(l + "\n") == [l]
  {
    SplitAtNewline(l, "");
    assert l + "\n" + "" == l + "\n";
  }

  /** Appending a newline-free line and its newline to terminated text adds that line. */
  lemma AppendLine(s: string, l: string)
    requires Terminated(s) && '\n' !in l
    ensures Terminated(s + (l + "\n"))
    ensures Lines(s + (l + "\n")) == Lines(s) + [l]
  {
    LinesAppend(s, l + "\n");
    OneLine(l);
  }

  /** All the values of `xs` when every one is present; `None` otherwise. */
  function Collect<T>(xs: seq<Option<T>>): Option<seq<T>> {
    if |xs| == 0 then Some([])
    else
      match (Collect(xs[..|xs| - 1]), xs[|xs| - 1])
      case (Some(vs), Some(v)) => Some(vs + [v])
      case _ => None
  }

  /** Present values are collected in order. */
  lemma {:induction false} CollectEach<T>(xs: seq<Option<T>>, vs: seq<T>)
    requires |xs| == |vs|
    requires forall i :: 0 <= i < |xs| ==> xs[i] == Some(vs[i])
    ensures Collect(xs) == Some(vs)
  {
    if |xs| > 0 {
      var n := |xs| - 1;
      CollectEach(xs[..n], vs[..n]);
      assert vs[..n] + [vs[n]] == vs;
    }
  }

  /** Collecting two runs of present values collects their concatenation. */
  lemma {:induction false} CollectAppend<T>(xs: seq<Option<T>>, ys: seq<Option<T>>, vs: seq<T>, ws: seq<T>)
    requires Collect(xs) == Some(vs) && Collect(ys) == Some(ws)
    ensures Collect(xs + ys) == Some(vs + ws)
    decreases |ys|
  {
    if |ys| == 0 {
      assert xs + ys == xs && vs + ws == vs;
    } else {
      var n := |ys| - 1;
      var w := ys[n].value;
      var us := Collect(ys[..n]).value;
      CollectAppend(xs, ys[..n], vs, us);
      assert (xs + ys)[..|xs + ys| - 1] == xs + ys[..n];
      assert vs + ws == (vs + us) + [w];
    }
  }

  /** `f` applied to each element of `xs`, in order. */
  function Map<A, B>(f: A -> B, xs: seq<A>): (ys: seq<B>)
    ensures |ys| == |xs|
    ensures forall i :: 0 <= i < |xs| ==> ys[i] == f(xs[i])
  {
    seq(|xs|, i requires 0 <= i < |xs| => f(xs[i]))
  }

  /** Mapping distributes over concatenation. */
  lemma MapAppend<A, B>(f: A -> B, xs: seq<A>, ys: seq<A>)
    ensures Map(f, xs + ys) == Map(f, xs) + Map(f, ys)
  {
  }

  /** Each line read back as a record; `None` if some line is not one. */
  function DecodeLines(lines: seq<string>): Option<seq<TranslationRecord>> {
    Collect(Map(ParseRecord, lines))
  }

  /** The records of a partition file. */
  function DecodePartition(content: string): Option<seq<TranslationRecord>> {
    DecodeLines(Lines(content))
  }

  /** Every append of `log` writes the line of the matching record. */
  predicate LinesOf(log: seq<LogAppend>, records: seq<TranslationRecord>) {
    |log| == |records| &&
    forall i {:trigger log[i]} :: 0 <= i < |log| ==> log[i].data == RecordLine(records[i])
  }

  /** An append of a record's line keeps the log a sequence of record lines. */
  lemma LinesOfSnoc(log: seq<LogAppend>, records: seq<TranslationRecord>, a: LogAppend, r: TranslationRecord)
    requires LinesOf(log, records) && a.data == RecordLine(r)
    ensures LinesOf(log + [a], records + [r])
  {
  }

  /** The records appended to the partition at `p`, in order. */
  function RecordsAt(log: seq<LogAppend>, records: seq<TranslationRecord>, p: LogPath): seq<TranslationRecord>
    requires |log| == |records|
  {
    if |log| == 0 then []
    else
      var n := |log| - 1;
      RecordsAt(log[..n], records[..n], p) + (if log[n].path == p then [records[n]] else [])
  }

  /** Lines that each read as the matching record read as those records. */
  lemma DecodeEach(ls: seq<string>, rs: seq<TranslationRecord>)
    requires |ls| == |rs|
    requires forall i :: 0 <= i < |ls| ==> ParseRecord(ls[i]) == Some(rs[i])
    ensures DecodeLines(ls) == Some(rs)
  {
    CollectEach(Map(ParseRecord, ls), rs);
  }

  /** The serialized forms of `rs`, in order. */
  function SerializeAll(rs: seq<TranslationRecord>): (ls: seq<string>)
    ensures |ls| == |rs|
    ensures forall i :: 0 <= i < |rs| ==> ls[i] == Serialize(rs[i])
  {
    seq(|rs|, i requires 0 <= i < |rs| => Serialize(rs[i]))
  }

  /** Serializing one more record adds its line at the end. */
  lemma SerializeSnoc(rs: seq<TranslationRecord>, r: TranslationRecord)
    ensures SerializeAll(rs + [r]) == SerializeAll(rs) + [Serialize(r)]
  {
  }

  /** Two runs of lines that each read back read back, together, as both runs of records. */
  lemma DecodeLinesAppend(a: seq<string>, b: seq<string>, x: seq<TranslationRecord>, y: seq<TranslationRecord>)
    requires DecodeLines(a) == Some(x) && DecodeLines(b) == Some(y)
    ensures DecodeLines(a + b) == Some(x + y)
  {
    MapAppend(ParseRecord, a, b);
    CollectAppend(Map(ParseRecord, a), Map(ParseRecord, b), x, y);
  }

  /** Serialized records read back as those records. */
  lemma DecodeSerializeAll(rs: seq<TranslationRecord>)
    ensures DecodeLines(SerializeAll(rs)) == Some(rs)
  {
    var ls := SerializeAll(rs);
    forall i | 0 <= i < |rs| ensures ParseRecord(ls[i]) == Some(rs[i]) {
      ParseSerialize(rs[i]);
    }
    DecodeEach(ls, rs);
  }

  /** The lines of a partition are the serialized records appended to it. */
  lemma {:induction false} PartitionLines(log: seq<LogAppend>, records: seq<TranslationRecord>, p: LogPath)
    requires LinesOf(log, records)
    ensures Terminated(Content(log, p))
    ensures Lines(Content(log, p)) == SerializeAll(RecordsAt(log, records, p))
  {
    if |log| > 0 {
      var n := |log| - 1;
      assert LinesOf(log[..n], records[..n]);
      PartitionLines(log[..n], records[..n], p);
      var before := Content(log[..n], p);
      var rs := RecordsAt(log[..n], records[..n], p);
      if log[n].path == p {
        var r := records[n];
        assert Content(log, p) == before + RecordLine(r);
        AppendLine(before, Serialize(r));
        assert RecordsAt(log, records, p) == rs + [r];
        SerializeSnoc(rs, r);
      } else {
        assert Content(log, p) == before;
        assert RecordsAt(log, records, p) == rs;
      }
    }
  }

  /**
   * A partition that already held newline-terminated text `c0` keeps its
   * lines, followed by the serialized records appended to it.
   */
  lemma PartitionFrom(c0: string, log: seq<LogAppend>, records: seq<TranslationRecord>, p: LogPath)
    requires Terminated(c0) && LinesOf(log, records)
    ensures Lines(c0 + Content(log, p)) == Lines(c0) + SerializeAll(RecordsAt(log, records, p))
  {
    PartitionLines(log, records, p);
    LinesAppend(c0, Content(log, p));
  }

  /**
   * A partition that already held the newline-terminated lines of the
   * records `earlier` reads back as those records followed by the ones
   * appended to it.
   */
  lemma PartitionDecodesFrom(
    c0: string, earlier: seq<TranslationRecord>, log: seq<LogAppend>, records: seq<TranslationRecord>, p: LogPath)
    requires Terminated(c0) && DecodePartition(c0) == Some(earlier) && LinesOf(log, records)
    ensures DecodePartition(c0 + Content(log, p)) == Some(earlier + RecordsAt(log, records, p))
  {
    PartitionFrom(c0, log, records, p);
    DecodeSerializeAll(RecordsAt(log, records, p));
    DecodeLinesAppend(Lines(c0), SerializeAll(RecordsAt(log, records, p)), earlier, RecordsAt(log, records, p));
  }

  /**
   * A partition written only by record appends reads back as exactly the
   * records appended to it, in order: no line is lost, split or merged.
   */
  lemma PartitionDecodes(log: seq<LogAppend>, records: seq<TranslationRecord>, p: LogPath)
    requires LinesOf(log, records)
    ensures DecodePartition(Content(log, p)) == Some(RecordsAt(log, records, p))
  {
    PartitionLines(log, records, p);
    DecodeSerializeAll(RecordsAt(log, records, p));
  }
}
