/**
 * Specification of the Q&A line parser (`SimpleRAG._parse_qa_pairs`).
 *
 * The reply of the model is trimmed and split into lines; every line is
 * trimmed again. A line that starts with 'Q' and holds a ':' is a question
 * marker, one that starts with 'A' and holds a ':' an answer marker; the
 * field of a marker is the trimmed text after its first ':'.
 *
 * `Scan` is the parser's state machine over the lines, with the two slots
 * `q` (current question) and `a` (current answer); an empty slot stands for
 * both Python's `None` and the empty string, which the parser only tests for
 * truth. `Records` is an independent, block-wise description of the same
 * result, and `ScanIsRecords` proves the two agree.
 */
module QaParsing {
  import opened Text

  /** One `{"question": ..., "answer": ...}` record. */
  datatype QAPair = QAPair(question: string, answer: string)

  /** What one line of the reply is to the parser: a marker with its field, or nothing. */
  datatype Marker = Question(field: string) | Answer(field: string) | Other

  /** The trimmed text after the first ':' of `t`. */
  function Field(t: string): string
    requires ':' in t
  {
    Strip(AfterFirst(t, ':'))
  }

  /** How the parser reads one line. */
  function Classify(line: string): Marker {
    var t := Strip(line);
    if StartsWith(t, 'Q') && ':' in t then Question(Field(t))
    else if StartsWith(t, 'A') && ':' in t then Answer(Field(t))
    else Other
  }

  /**
   * A line is a question marker exactly when, trimmed, it starts with 'Q' and
   * holds a ':', and an answer marker exactly when it starts with 'A' and
   * holds a ':'. A marker's field is the trimmed text after the first ':' of
   * the trimmed line.
   */
  lemma ClassifyMeaning(line: string)
    ensures var t := Strip(line); var m := Classify(line);
      && (m.Question? <==> StartsWith(t, 'Q') && ':' in t)
      && (m.Answer? <==> StartsWith(t, 'A') && ':' in t)
      && (!m.Other? ==>
            exists k :: 0 <= k < |t| && t[k] == ':' && ':' !in t[..k] && m.field == Strip(t[k + 1..]))
  {
    var t := Strip(line);
    if ':' in t {
      var f := AfterFirst(t, ':');
      AfterFirstFacts(t, ':');
      var k := |t| - |f| - 1;
      assert t[k] == ':' && t[k + 1..] == f;
    }
  }

  /** The markers of a sequence of lines, line by line. */
  function Classified(lines: seq<string>): (ms: seq<Marker>)
    ensures |ms| == |lines|
    ensures forall k :: 0 <= k < |lines| ==> ms[k] == Classify(lines[k])
  {
    seq(|lines|, k requires 0 <= k < |lines| => Classify(lines[k]))
  }

  /** A record for the slots, when both hold text. */
  function Emit(q: string, a: string): (r: seq<QAPair>)
    ensures |r| <= 1
    ensures r != [] <==> q != [] && a != []
    ensures r != [] ==> r[0] == QAPair(q, a)
  {
    if q != [] && a != [] then [QAPair(q, a)] else []
  }

  /** The number of question markers in `ms`. */
  function Questions(ms: seq<Marker>): nat
    decreases |ms|
  {
    if ms == [] then 0
    else (if ms[0].Question? then 1 else 0) + Questions(ms[1..])
  }

  /** The parser's scan of the markers `ms` from slots `q` and `a`. */
  function Scan(ms: seq<Marker>, q: string, a: string): seq<QAPair>
    decreases |ms|
  {
    if ms == [] then Emit(q, a)
    else match ms[0]
      case Question(f) => Emit(q, a) + Scan(ms[1..], f, [])
      case Answer(f) => Scan(ms[1..], q, f)
      case Other => Scan(ms[1..], q, a)
  }

  /** Records with a non-empty question and answer. */
  predicate Filled(r: seq<QAPair>) {
    forall k :: 0 <= k < |r| ==> r[k].question != [] && r[k].answer != []
  }

  /**
   * Every record the scan emits has a non-empty question and answer, and it
   * emits at most one record per question marker plus one for a pending
   * question.
   */
  lemma {:induction false} ScanShape(ms: seq<Marker>, q: string, a: string)
    ensures Filled(Scan(ms, q, a))
    ensures |Scan(ms, q, a)| <= Questions(ms) + (if q != [] then 1 else 0)
    decreases |ms|
  {
    if ms != [] {
      match ms[0]
      case Question(f) =>
        ScanShape(ms[1..], f, []);
        FilledAppend(Emit(q, a), Scan(ms[1..], f, []));
      case Answer(f) =>
        ScanShape(ms[1..], q, f);
      case Other =>
        ScanShape(ms[1..], q, a);
    }
  }

  lemma FilledAppend(r1: seq<QAPair>, r2: seq<QAPair>)
    requires Filled(r1) && Filled(r2)
    ensures Filled(r1 + r2)
  {
    assert forall k :: |r1| <= k < |r1 + r2| ==> (r1 + r2)[k] == r2[k - |r1|];
  }

  /** One step of the scan, at marker `i`. */
  lemma ScanStep(ms: seq<Marker>, i: nat, q: string, a: string)
    requires i < |ms|
    ensures Scan(ms[i..], q, a) == match ms[i]
      case Question(f) => Emit(q, a) + Scan(ms[i + 1..], f, [])
      case Answer(f) => Scan(ms[i + 1..], q, f)
      case Other => Scan(ms[i + 1..], q, a)
  {
    assert ms[i..][0] == ms[i] && ms[i..][1..] == ms[i + 1..];
  }

  /** The lines of a reply: the trimmed reply split on '\n'. */
  function Lines(text: string): (lines: seq<string>)
    ensures |lines| >= 1
  {
    Split(Strip(text), '\n')
  }

  /** What `_parse_qa_pairs(text)` returns: the scan of the reply's lines from an empty pending pair. */
  function Parse(text: string): seq<QAPair> {
    Scan(Classified(Lines(text)), [], [])
  }

  /**
   * Every parsed record has a non-empty question and answer, and there are
   * at most as many records as question markers among the lines.
   */
  lemma ParseShape(text: string)
    ensures var r := Parse(text);
      && (forall k :: 0 <= k < |r| ==> r[k].question != [] && r[k].answer != [])
      && |r| <= Questions(Classified(Lines(text)))
  {
    ScanShape(Classified(Lines(text)), [], []);
  }

  /** `f` applied to each element of `xs`, the results joined in order. */
  function Concat<T, U>(f: T -> seq<U>, xs: seq<T>): seq<U>
    decreases |xs|
  {
    if xs == [] then [] else f(xs[0]) + Concat(f, xs[1..])
  }

  lemma {:induction false} ConcatAppend<T, U>(f: T -> seq<U>, xs: seq<T>, ys: seq<T>)
    ensures Concat(f, xs + ys) == Concat(f, xs) + Concat(f, ys)
    decreases |xs|
  {
    if xs != [] {
      assert (xs + ys)[0] == xs[0] && (xs + ys)[1..] == xs[1..] + ys;
      ConcatAppend(f, xs[1..], ys);
    } else {
      assert xs + ys == ys;
    }
  }

  /** The records parsed from each reply text, joined in order. */
  function ParseAll(texts: seq<string>): seq<QAPair> {
    Concat(Parse, texts)
  }

  /** Every record parsed from any number of reply texts has a non-empty question and answer. */
  lemma {:induction false} ParseAllFilled(texts: seq<string>)
    ensures Filled(ParseAll(texts))
    decreases |texts|
  {
    if texts != [] {
      ParseShape(texts[0]);
      ParseAllFilled(texts[1..]);
      assert ParseAll(texts) == Parse(texts[0]) + ParseAll(texts[1..]);
      FilledAppend(Parse(texts[0]), ParseAll(texts[1..]));
    }
  }

  /** Parsing several reply texts, joined, is parsing each in turn; one text gives its own records. */
  lemma ParseAllAppend(texts: seq<string>, more: seq<string>)
    ensures ParseAll(texts + more) == ParseAll(texts) + ParseAll(more)
    ensures |texts| == 1 ==> ParseAll(texts) == Parse(texts[0])
  {
    ConcatAppend(Parse, texts, more);
    if |texts| == 1 {
      assert texts[1..] == [];
    }
  }

  // ---------------------------------------------------------------------
  // The block-wise reference description.
  // ---------------------------------------------------------------------

  /** The index of the first question marker, or `|ms|` when there is none. */
  function FirstQuestion(ms: seq<Marker>): (i: nat)
    ensures i <= |ms|
    ensures i < |ms| ==> ms[i].Question?
    decreases |ms|
  {
    if ms == [] || ms[0].Question? then 0
    else 1 + FirstQuestion(ms[1..])
  }

  /** Without question markers, `FirstQuestion` is the length. */
  lemma {:induction false} FirstQuestionNone(ms: seq<Marker>)
    requires forall k :: 0 <= k < |ms| ==> !ms[k].Question?
    ensures FirstQuestion(ms) == |ms|
    decreases |ms|
  {
    if ms != [] {
      FirstQuestionNone(ms[1..]);
    }
  }

  /** The field of the last answer marker in `block`, or `default` when the block holds none. */
  function LastAnswer(block: seq<Marker>, default: string): string
    decreases |block|
  {
    if block == [] then default
    else if block[|block| - 1].Answer? then block[|block| - 1].field
    else LastAnswer(block[..|block| - 1], default)
  }

  /**
   * When the block holds an answer marker (`i` is one), `LastAnswer` is the
   * field of an answer marker at or after `i` that no later answer marker
   * follows. Without any, it is `default` (`LastAnswerNone`).
   */
  lemma {:induction false} LastAnswerIsLast(block: seq<Marker>, default: string, i: nat) returns (k: nat)
    requires i < |block| && block[i].Answer?
    ensures i <= k < |block| && block[k] == Answer(LastAnswer(block, default))
    ensures forall n :: k < n < |block| ==> !block[n].Answer?
    decreases |block|
  {
    var last := |block| - 1;
    if block[last].Answer? {
      k := last;
    } else {
      var init := block[..last];
      assert init[i] == block[i];
      k := LastAnswerIsLast(init, default, i);
      assert block[k] == init[k];
      forall n | k < n < |block|
        ensures !block[n].Answer?
      {
        if n < last {
          assert block[n] == init[n];
        }
      }
    }
  }

  /**
   * The records of `ms`, block by block: markers before the first question
   * are ignored; each question marker and the markers up to the next one
   * form a block, which yields the question's field with the field of its
   * last answer marker, unless either is empty.
   */
  function Records(ms: seq<Marker>): seq<QAPair>
    decreases |ms|
  {
    if ms == [] then []
    else if !ms[0].Question? then Records(ms[1..])
    else
      var rest := ms[1..];
      Emit(ms[0].field, LastAnswer(rest[..FirstQuestion(rest)], [])) + Records(rest)
  }

  /** Adding a marker in front of a block: an answer is overtaken by any later one. */
  lemma {:induction false} LastAnswerCons(m: Marker, block: seq<Marker>, default: string)
    ensures LastAnswer([m] + block, default)
              == LastAnswer(block, if m.Answer? then m.field else default)
    decreases |block|
  {
    var b := [m] + block;
    if block != [] {
      assert b[|b| - 1] == block[|block| - 1];
      if !block[|block| - 1].Answer? {
        assert b[..|b| - 1] == [m] + block[..|block| - 1];
        LastAnswerCons(m, block[..|block| - 1], default);
      }
    } else {
      assert b[..|b| - 1] == [];
    }
  }

  /**
   * The scan from slots `q` and `a` emits the record of the pending question
   * (answered by the last answer marker before the first question marker,
   * or by `a`), then the records of the blocks.
   */
  lemma {:induction false} ScanIsRecords(ms: seq<Marker>, q: string, a: string)
    ensures Scan(ms, q, a) == Emit(q, LastAnswer(ms[..FirstQuestion(ms)], a)) + Records(ms)
    decreases |ms|
  {
    if ms == [] {
      assert ms[..0] == [];
    } else {
      var m := ms[0];
      var rest := ms[1..];
      if m.Question? {
        assert ms[..0] == [];
        ScanIsRecords(rest, m.field, []);
      } else {
        var a' := if m.Answer? then m.field else a;
        ScanIsRecords(rest, q, a');
        var j := FirstQuestion(rest);
        assert ms[..j + 1] == [m] + rest[..j];
        LastAnswerCons(m, rest[..j], a);
      }
    }
  }

  /** The parser computes the block-wise records of the reply's markers. */
  lemma ParseIsRecords(text: string)
    ensures Parse(text) == Records(Classified(Lines(text)))
  {
    ScanIsRecords(Classified(Lines(text)), [], []);
  }

  /** At most one record per question marker. */
  lemma {:induction false} RecordsCount(ms: seq<Marker>)
    ensures |Records(ms)| <= Questions(ms)
    decreases |ms|
  {
    ScanIsRecords(ms, [], []);
    ScanShape(ms, [], []);
  }

  /** Where the second part starts with a question, the first question of a concatenation is that of the first part, or the seam. */
  lemma {:induction false} FirstQuestionAppend(l1: seq<Marker>, l2: seq<Marker>)
    requires l2 == [] || l2[0].Question?
    ensures FirstQuestion(l1 + l2) == FirstQuestion(l1)
    decreases |l1|
  {
    if l1 == [] {
      assert l1 + l2 == l2;
    } else if !l1[0].Question? {
      assert (l1 + l2)[1..] == l1[1..] + l2;
      FirstQuestionAppend(l1[1..], l2);
    }
  }

  /**
   * Records are emitted in input order: when the second part starts with a
   * question marker, the records of a concatenation are those of the first
   * part followed by those of the second.
   */
  lemma {:induction false} RecordsAppend(l1: seq<Marker>, l2: seq<Marker>)
    requires l2 == [] || l2[0].Question?
    ensures Records(l1 + l2) == Records(l1) + Records(l2)
    decreases |l1|
  {
    if l1 == [] {
      assert l1 + l2 == l2;
    } else {
      RecordsAppend(l1[1..], l2);
      if l1[0].Question? {
        AppendQuestionStep(l1, l2);
      } else {
        AppendOtherStep(l1, l2);
      }
    }
  }

  lemma AppendQuestionStep(l1: seq<Marker>, l2: seq<Marker>)
    requires l1 != [] && l1[0].Question? && (l2 == [] || l2[0].Question?)
    requires Records(l1[1..] + l2) == Records(l1[1..]) + Records(l2)
    ensures Records(l1 + l2) == Records(l1) + Records(l2)
  {
    var rest := l1[1..];
    var e := Emit(l1[0].field, LastAnswer(rest[..FirstQuestion(rest)], []));
    QuestionBlockAppend(l1, l2);
    assert Records(l1) == e + Records(rest);
    ConcatAssoc(e, Records(rest), Records(l2));
  }

  /** A question block at the front keeps its answer when a part starting with a question follows. */
  lemma QuestionBlockAppend(l1: seq<Marker>, l2: seq<Marker>)
    requires l1 != [] && l1[0].Question? && (l2 == [] || l2[0].Question?)
    ensures var rest := l1[1..];
      Records(l1 + l2) == Emit(l1[0].field, LastAnswer(rest[..FirstQuestion(rest)], [])) + Records(rest + l2)
  {
    var rest := l1[1..];
    var j := FirstQuestion(rest);
    ConsAppend(l1, l2);
    FirstQuestionAppend(rest, l2);
    assert (rest + l2)[..j] == rest[..j];
  }

  lemma ConcatAssoc<T>(x: seq<T>, y: seq<T>, z: seq<T>)
    ensures x + (y + z) == (x + y) + z
  {
  }

  lemma AppendOtherStep(l1: seq<Marker>, l2: seq<Marker>)
    requires l1 != [] && !l1[0].Question?
    requires Records(l1[1..] + l2) == Records(l1[1..]) + Records(l2)
    ensures Records(l1 + l2) == Records(l1) + Records(l2)
  {
    ConsAppend(l1, l2);
  }

  /** The head and tail of a concatenation with a non-empty first part. */
  lemma ConsAppend(l1: seq<Marker>, l2: seq<Marker>)
    requires l1 != []
    ensures (l1 + l2)[0] == l1[0] && (l1 + l2)[1..] == l1[1..] + l2
  {
  }

  /** Markers without a question yield no records. */
  lemma {:induction false} RecordsNone(ms: seq<Marker>)
    requires forall k :: 0 <= k < |ms| ==> !ms[k].Question?
    ensures Records(ms) == []
    decreases |ms|
  {
    if ms != [] {
      RecordsNone(ms[1..]);
    }
  }

  /** A block yields its question with its last answer, and nothing when it has no answer marker. */
  lemma BlockRecord(m: Marker, block: seq<Marker>)
    requires m.Question?
    requires forall k :: 0 <= k < |block| ==> !block[k].Question?
    ensures Records([m] + block) == Emit(m.field, LastAnswer(block, []))
  {
    var l := [m] + block;
    assert l[1..] == block;
    FirstQuestionNone(block);
    RecordsNone(block);
    assert block[..|block|] == block;
  }

  /**
   * A question whose block holds no answer marker is dropped: it adds no
   * record between those of the markers before and after it.
   */
  lemma UnansweredQuestionDropped(before: seq<Marker>, m: Marker, block: seq<Marker>, after: seq<Marker>)
    requires m.Question?
    requires forall k :: 0 <= k < |block| ==> block[k].Other?
    requires after == [] || after[0].Question?
    ensures Records(before + ([m] + block) + after) == Records(before) + Records(after)
  {
    var b := [m] + block;
    assert Records(b) == [] by {
      BlockRecord(m, block);
      LastAnswerNone(block, []);
    }
    assert Records(before + b) == Records(before) by {
      RecordsAppend(before, b);
      assert Records(before) + [] == Records(before);
    }
    RecordsAppend(before + b, after);
  }

  /** A block without answer markers leaves the answer at its default. */
  lemma {:induction false} LastAnswerNone(block: seq<Marker>, default: string)
    requires forall k :: 0 <= k < |block| ==> !block[k].Answer?
    ensures LastAnswer(block, default) == default
    decreases |block|
  {
    if block != [] {
      var init := block[..|block| - 1];
      assert forall k :: 0 <= k < |init| ==> init[k] == block[k];
      LastAnswerNone(init, default);
    }
  }

  /**
   * With several answer markers in one block, the last one wins: the block's
   * record holds the field of the last answer marker.
   */
  lemma LastAnswerWins(m: Marker, block: seq<Marker>, k: nat)
    requires m.Question? && m.field != []
    requires forall n :: 0 <= n < |block| ==> !block[n].Question?
    requires k < |block| && block[k].Answer? && block[k].field != []
    requires forall n :: k < n < |block| ==> !block[n].Answer?
    ensures Records([m] + block) == [QAPair(m.field, block[k].field)]
  {
    BlockRecord(m, block);
    var k' := LastAnswerIsLast(block, [], k);
    assert k' == k;
    assert Emit(m.field, block[k].field) == [QAPair(m.field, block[k].field)];
  }

  /** Markers before the first question, answer markers among them, are ignored. */
  lemma {:induction false} LeadingMarkersIgnored(before: seq<Marker>, ms: seq<Marker>)
    requires forall k :: 0 <= k < |before| ==> !before[k].Question?
    ensures Records(before + ms) == Records(ms)
    decreases |before|
  {
    if before == [] {
      assert before + ms == ms;
    } else {
      var l := before + ms;
      assert l[0] == before[0] && l[1..] == before[1..] + ms;
      LeadingMarkersIgnored(before[1..], ms);
    }
  }

  /**
   * The dangling question of a reply "Q1: q / A1: a / Q2: ..." is dropped:
   * only the first pair is returned.
   */
  lemma DanglingQuestionDropped(q: string, a: string, q2: string)
    requires q != [] && a != []
    ensures Scan([Question(q), Answer(a), Question(q2)], [], []) == [QAPair(q, a)]
  {
    var ms := [Question(q), Answer(a), Question(q2)];
    assert ms[1..] == [Answer(a), Question(q2)];
    assert ms[1..][1..] == [Question(q2)];
    assert ms[1..][1..][1..] == [];
    assert Scan(ms[1..][1..][1..], q2, []) == [];
    assert Scan(ms[1..][1..], q, a) == [QAPair(q, a)] + Scan(ms[1..][1..][1..], q2, []);
  }

  // ---------------------------------------------------------------------
  // The parser on reply text.
  // ---------------------------------------------------------------------

  /** In `head: field`, with a ':'-free head and a field without white space at its ends, the field is `field`. */
  lemma FieldOf(head: string, field: string)
    requires ':' !in head
    requires field != [] && !IsSpace(field[0]) && !IsSpace(field[|field| - 1])
    ensures ':' in head + ": " + field
    ensures Field(head + ": " + field) == field
  {
    var s := head + ": " + field;
    assert s == head + [':'] + ([' '] + field);
    FindAfterFree(head, ':', [' '] + field);
    assert AfterFirst(s, ':') == [' '] + field;
    assert ([' '] + field)[1..] == field;
    StripId(field);
  }

  /** The line `head: field` is a question marker when `head` starts with 'Q', an answer marker when it starts with 'A'. */
  lemma ClassifyLine(head: string, field: string)
    requires head != [] && !IsSpace(head[0]) && ':' !in head
    requires field != [] && !IsSpace(field[0]) && !IsSpace(field[|field| - 1])
    ensures Classify(head + ": " + field)
      == if head[0] == 'Q' then Question(field) else if head[0] == 'A' then Answer(field) else Other
  {
    var s := head + ": " + field;
    StripId(s);
    FieldOf(head, field);
  }

  /** A reply made of newline-free lines, with no white space at its two ends, splits back into those lines. */
  lemma LinesOfJoin(lines: seq<string>)
    requires |lines| >= 1
    requires forall i :: 0 <= i < |lines| ==> '\n' !in lines[i]
    requires var t := Join(lines, '\n'); t != [] && !IsSpace(t[0]) && !IsSpace(t[|t| - 1])
    ensures Lines(Join(lines, '\n')) == lines
  {
    StripId(Join(lines, '\n'));
    SplitJoin(lines, '\n');
  }

  /** A field that can stand after "Q1: " on a line of its own: non-empty, no newline, no white space at its ends. */
  predicate LineField(f: string) {
    f != [] && !IsSpace(f[0]) && !IsSpace(f[|f| - 1]) && '\n' !in f
  }

  /** The reply "Q1: q / A1: a / Q2: q2" splits into its three lines. */
  lemma ReplyLines(q: string, a: string, q2: string)
    requires LineField(q) && LineField(a) && LineField(q2)
    ensures Lines("Q1: " + q + "\nA1: " + a + "\nQ2: " + q2) == ["Q1" + ": " + q, "A1" + ": " + a, "Q2" + ": " + q2]
  {
    var l1, l2, l3 := "Q1" + ": " + q, "A1" + ": " + a, "Q2" + ": " + q2;
    var lines := [l1, l2, l3];
    var text := "Q1: " + q + "\nA1: " + a + "\nQ2: " + q2;
    assert Join(lines, '\n') == text by {
      assert lines[1..] == [l2, l3];
      assert lines[1..][1..] == [l3];
      assert Join([l2, l3], '\n') == l2 + ['\n'] + l3;
      assert Join(lines, '\n') == l1 + ['\n'] + (l2 + ['\n'] + l3);
      assert "Q1" + ": " == "Q1: " && "A1" + ": " == "A1: " && "Q2" + ": " == "Q2: ";
      assert "\nA1: " == ['\n'] + "A1: " && "\nQ2: " == ['\n'] + "Q2: ";
    }
    assert text[0] == 'Q' && text[|text| - 1] == q2[|q2| - 1];
    LinesOfJoin(lines);
  }

  /**
   * On reply text: in "Q1: q / A1: a / Q2: q2", the second question has no
   * answer line after it and yields no record; only (q, a) is returned.
   */
  lemma DanglingQuestionInReply(q: string, a: string, q2: string)
    requires LineField(q) && LineField(a) && LineField(q2)
    ensures Parse("Q1: " + q + "\nA1: " + a + "\nQ2: " + q2) == [QAPair(q, a)]
  {
    ReplyLines(q, a, q2);
    ClassifyLine("Q1", q);
    ClassifyLine("A1", a);
    ClassifyLine("Q2", q2);
    var ms := Classified(["Q1" + ": " + q, "A1" + ": " + a, "Q2" + ": " + q2]);
    assert ms == [Question(q), Answer(a), Question(q2)];
    DanglingQuestionDropped(q, a, q2);
  }
}
