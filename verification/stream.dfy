/**
 * The prefixed line writer of `src/stream.js` and its two small siblings.
 *
 * A `PrefixedWritable` renders backspaces in every line of a chunk, drops
 * whitespace-only control frames once a line was changed by rendering,
 * prefixes each line with "<name>  | " and writes the result to an inner
 * sink. The only state it keeps between writes is the shared
 * `LineState.beginWithNewline` flag: it does not hold back a trailing
 * fragment, it prefixes and writes it at once.
 */
module Stream {
  import opened Text

  /** The backspace character, "\x08". */
  const BS: char := '\U{8}'

  // ---------------------------------------------------------------------------
  // Backspace rendering
  // ---------------------------------------------------------------------------

  /** The state of `render`'s loop: the cursor `index` and the `result` so far. */
  datatype Cursor = Cursor(index: nat, text: string)

  ghost predicate InBounds(c: Cursor)
  {
    c.index <= |c.text|
  }

  /** One character of the line through the cursor: a backspace moves left
      (never below 0), anything else overwrites at the cursor or appends. */
  function Step(c: Cursor, ch: char): (d: Cursor)
    requires InBounds(c)
    ensures InBounds(d)
  {
    if ch == BS then Cursor(if c.index > 0 then c.index - 1 else 0, c.text)
    else if c.index < |c.text| then Cursor(c.index + 1, c.text[..c.index] + [ch] + c.text[c.index + 1..])
    else Cursor(c.index + 1, c.text + [ch])
  }

  /** The cursor after feeding it every character of `s`. */
  function Run(c: Cursor, s: string): (d: Cursor)
    requires InBounds(c)
    ensures InBounds(d)
    decreases |s|
  {
    if |s| == 0 then c else Run(Step(c, s[0]), s[1..])
  }

  /** What `render(line)` returns: the cursor walk, taken only when the line
      holds a backspace. */
  function Rendered(line: string): string
  {
    if BS in line then Run(Cursor(0, ""), line).text else line
  }

  /** The number of characters of `s` that are not backspaces. */
  function CountNonBackspace(s: string): (n: nat)
    ensures n <= |s|
  {
    if |s| == 0 then 0 else (if s[0] == BS then 0 else 1) + CountNonBackspace(s[1..])
  }

  /** With no backspace to move it, a cursor at the end of its text only appends. */
  lemma {:induction false} RunAppendsWithoutBackspace(t: string, s: string)
    requires BS !in s
    ensures Run(Cursor(|t|, t), s) == Cursor(|t| + |s|, t + s)
    decreases |s|
  {
    if |s| > 0 {
      assert BS !in s[1..];
      RunAppendsWithoutBackspace(t + [s[0]], s[1..]);
      assert t + [s[0]] + s[1..] == t + s;
    }
  }

  /** The `includes('\x08')` test is only a shortcut: the cursor walk gives the
      line back unchanged whenever it holds no backspace. */
  lemma RenderedIsCursorWalk(line: string)
    ensures Rendered(line) == Run(Cursor(0, ""), line).text
  {
    if BS !in line {
      RunAppendsWithoutBackspace("", line);
    }
  }

  /** Every character the walk leaves in the text was already there or is a
      non-backspace character of the input; the text grows by at most one per
      non-backspace character. */
  lemma {:induction false} RunKeepsOnlyInputCharacters(c: Cursor, s: string)
    requires InBounds(c)
    ensures |Run(c, s).text| <= |c.text| + CountNonBackspace(s)
    ensures forall k :: 0 <= k < |Run(c, s).text| ==>
              Run(c, s).text[k] in c.text || (Run(c, s).text[k] in s && Run(c, s).text[k] != BS)
    decreases |s|
  {
    if |s| > 0 {
      var d := Step(c, s[0]);
      RunKeepsOnlyInputCharacters(d, s[1..]);
      assert forall k :: 0 <= k < |d.text| ==> d.text[k] in c.text || (d.text[k] == s[0] && s[0] != BS);
      assert forall ch :: ch in s[1..] ==> ch in s;
    }
  }

  /** `render`'s result holds no backspace, only characters of the line, and is
      no longer than the line's non-backspace characters. */
  lemma RenderedProperties(line: string)
    ensures BS !in Rendered(line)
    ensures forall k :: 0 <= k < |Rendered(line)| ==> Rendered(line)[k] in line
    ensures |Rendered(line)| <= CountNonBackspace(line)
    ensures BS !in line ==> Rendered(line) == line
  {
    RunKeepsOnlyInputCharacters(Cursor(0, ""), line);
    if BS !in line {
      NoBackspaceCountsAll(line);
    }
  }

  lemma {:induction false} NoBackspaceCountsAll(s: string)
    requires BS !in s
    ensures CountNonBackspace(s) == |s|
  {
    if |s| > 0 {
      assert BS !in s[1..];
      NoBackspaceCountsAll(s[1..]);
    }
  }

  // ---------------------------------------------------------------------------
  // The "tty" filter of write()
  // ---------------------------------------------------------------------------

  /** Rendering changed this line: it carried terminal commands. */
  predicate Changed(line: string)
  {
    Rendered(line) != line
  }

  /** What the filtering loop of `write` has built after some lines. */
  datatype Scanned = Scanned(kept: seq<string>, tty: bool)

  /** The filtering loop of `write`, one line at a time from the left:
      `tty` latches at the first changed line; a line is kept while `tty` is
      false or when its rendering does not trim to nothing. */
  function Scan(lines: seq<string>): Scanned
    decreases |lines|
  {
    if |lines| == 0 then Scanned([], false)
    else
      var prev := Scan(lines[..|lines| - 1]);
      var line := lines[|lines| - 1];
      var r := Rendered(line);
      var tty := prev.tty || line != r;
      Scanned(if !tty || !TrimsToEmpty(r) then prev.kept + [r] else prev.kept, tty)
  }

  /** The index of the first changed line, or `|lines|` when there is none. */
  function FirstChanged(lines: seq<string>): (k: nat)
    ensures k <= |lines|
    ensures k < |lines| ==> Changed(lines[k])
  {
    if |lines| == 0 then 0
    else if Changed(lines[0]) then 0
    else 1 + FirstChanged(lines[1..])
  }

  lemma {:induction false} FirstChangedIsFirst(lines: seq<string>, j: nat)
    requires j < FirstChanged(lines)
    ensures !Changed(lines[j])
  {
    if j > 0 {
      FirstChangedIsFirst(lines[1..], j - 1);
    }
  }

  /** Dropping the last line does not move an earlier first change. */
  lemma {:induction false} FirstChangedOfPrefix(lines: seq<string>)
    requires |lines| >= 1
    ensures var k := FirstChanged(lines[..|lines| - 1]);
            FirstChanged(lines) == if k < |lines| - 1 then k
                                   else if Changed(lines[|lines| - 1]) then |lines| - 1
                                   else |lines|
  {
    if |lines| > 1 && !Changed(lines[0]) {
      assert lines[1..][..|lines| - 2] == lines[..|lines| - 1][1..];
      FirstChangedOfPrefix(lines[1..]);
    }
  }

  /** The renderings of some lines, in order. */
  function RenderAll(lines: seq<string>): (rs: seq<string>)
    ensures |rs| == |lines|
    ensures forall i :: 0 <= i < |lines| ==> rs[i] == Rendered(lines[i])
  {
    seq(|lines|, i requires 0 <= i < |lines| => Rendered(lines[i]))
  }

  /** The elements that do not trim to nothing, in order. */
  function NonBlank(rs: seq<string>): (out: seq<string>)
    ensures |out| <= |rs|
    decreases |rs|
  {
    if |rs| == 0 then []
    else NonBlank(rs[..|rs| - 1]) + (if TrimsToEmpty(rs[|rs| - 1]) then [] else [rs[|rs| - 1]])
  }

  /** The filter, stated outright: `tty` is set exactly when some line changed;
      every line before the first changed one is kept as it is; from that line
      on, exactly the renderings that are not all whitespace are kept. */
  lemma {:induction false} ScanKeepsUpToFirstChangeThenNonBlank(lines: seq<string>)
    ensures var k := FirstChanged(lines);
            && (Scan(lines).tty <==> k < |lines|)
            && Scan(lines).kept == lines[..k] + NonBlank(RenderAll(lines[k..]))
    decreases |lines|
  {
    if |lines| > 0 {
      var n := |lines|;
      var front := lines[..n - 1];
      var last := lines[n - 1];
      assert lines == front + [last];
      ScanKeepsUpToFirstChangeThenNonBlank(front);
      FirstChangedOfPrefix(lines);
      var k := FirstChanged(front);
      ScanSnoc(front, last);
      if k < n - 1 {
        assert Changed(front[k]);
        KeptAfterChange(front, last, k);
      } else if Changed(last) {
        assert front[..k] == front;
        ScanAtChange(front, last);
      } else {
        assert front[..k] == front;
        RenderedProperties(last);
      }
    }
  }

  /** One more line through the filter. */
  lemma ScanSnoc(front: seq<string>, last: string)
    ensures var r := Rendered(last);
            var tty := Scan(front).tty || last != r;
            Scan(front + [last])
              == Scanned(if !tty || !TrimsToEmpty(r) then Scan(front).kept + [r] else Scan(front).kept, tty)
  {
    assert (front + [last])[..|front|] == front;
  }

  /** The filter's right-hand side grows by the new line's rendering when it
      is not blank, once the change lies among the earlier lines. */
  lemma KeptAfterChange(front: seq<string>, last: string, k: nat)
    requires k < |front|
    ensures var r := Rendered(last);
            (front + [last])[..k] + NonBlank(RenderAll((front + [last])[k..]))
            == front[..k] + NonBlank(RenderAll(front[k..])) + (if TrimsToEmpty(r) then [] else [r])
  {
    var r := Rendered(last);
    var tail := if TrimsToEmpty(r) then [] else [r];
    var lines := front + [last];
    assert lines[k..] == front[k..] + [last];
    assert lines[..k] == front[..k];
    RenderAllSnoc(front[k..], last);
    NonBlankSnoc(RenderAll(front[k..]), r);
    assert front[..k] + NonBlank(RenderAll(front[k..])) + tail
           == front[..k] + (NonBlank(RenderAll(front[k..])) + tail);
  }

  /** The step of the filter at the first changed line itself. */
  lemma ScanAtChange(front: seq<string>, last: string)
    requires Changed(last)
    requires !Scan(front).tty && Scan(front).kept == front
    ensures Scan(front + [last]).tty
    ensures Scan(front + [last]).kept == front + NonBlank([Rendered(last)])
  {
    ScanSnoc(front, last);
    assert [Rendered(last)][..0] == [];
  }

  lemma RenderAllSnoc(lines: seq<string>, line: string)
    ensures RenderAll(lines + [line]) == RenderAll(lines) + [Rendered(line)]
  {
  }

  lemma NonBlankSnoc(rs: seq<string>, r: string)
    ensures NonBlank(rs + [r]) == NonBlank(rs) + (if TrimsToEmpty(r) then [] else [r])
  {
    assert (rs + [r])[..|rs|] == rs;
  }

  // ---------------------------------------------------------------------------
  // Assembling the output of write()
  // ---------------------------------------------------------------------------

  /** `this.prefix ? `${this.prefix}  | ` : ''`, with "" standing for a falsy prefix. */
  function Prefix(name: string): string
  {
    if name != "" then name + "  | " else ""
  }

  /** A trailing empty rendered line is popped by `write`. */
  predicate EndsWithEmpty(kept: seq<string>)
  {
    |kept| > 0 && kept[|kept| - 1] == ""
  }

  /** The lines that get the prefix: the kept ones less a popped trailing
      empty line, after a leading "" when `beginWithNewline` was set. */
  function Shown(beginWithNewline: bool, kept: seq<string>): seq<string>
  {
    (if beginWithNewline then [""] else [])
    + (if EndsWithEmpty(kept) then kept[..|kept| - 1] else kept)
  }

  /** The `prefixed` array: each shown line with the prefix, then the popped
      empty line, unprefixed, when there was one. */
  function OutputLines(prefix: string, beginWithNewline: bool, kept: seq<string>): seq<string>
  {
    var shown := Shown(beginWithNewline, kept);
    seq(|shown|, i requires 0 <= i < |shown| => prefix + shown[i])
    + (if EndsWithEmpty(kept) then [""] else [])
  }

  /** The outcome of one `write` call: the text for the inner stream and the
      final `tty` flag. */
  datatype Written = Written(output: string, tty: bool)

  /** The lines of a chunk: the first "\r\n" normalised, then split on "\n". */
  function ChunkLines(chunk: string): (lines: seq<string>)
    ensures |lines| >= 1
    ensures forall i :: 0 <= i < |lines| ==> '\n' !in lines[i]
  {
    Split(NormalizeCrlf(chunk), '\n')
  }

  function WriteResult(prefix: string, beginWithNewline: bool, chunk: string): Written
  {
    var scanned := Scan(ChunkLines(chunk));
    Written(Join(OutputLines(prefix, beginWithNewline, scanned.kept), "\n"), scanned.tty)
  }

  /** What the steps of `write` compute is its `WriteResult`. */
  lemma WriteResultOf(name: string, begin: bool, chunk: string, kept: seq<string>, tty: bool, output: string)
    requires Scan(ChunkLines(chunk)) == Scanned(kept, tty)
    requires output == Join(OutputLines(if name != "" then name + "  | " else "", begin, kept), "\n")
    ensures WriteResult(Prefix(name), begin, chunk) == Written(output, tty)
  {
  }

  /** The value `write` leaves in `lineState.beginWithNewline`. */
  function NextBeginWithNewline(w: Written): bool
  {
    (w.output == "" || w.output[|w.output| - 1] != '\n') && !w.tty
  }

  /** No kept line holds a newline: each is a rendering of a piece of the split. */
  lemma {:induction false} ScanKeepsNoNewline(lines: seq<string>)
    requires forall i :: 0 <= i < |lines| ==> '\n' !in lines[i]
    ensures forall i :: 0 <= i < |Scan(lines).kept| ==> '\n' !in Scan(lines).kept[i]
    decreases |lines|
  {
    if |lines| > 0 {
      ScanKeepsNoNewline(lines[..|lines| - 1]);
      RenderedProperties(lines[|lines| - 1]);
    }
  }

  /** Splitting the written text on "\n" gives back exactly the `prefixed`
      lines: every shown line carries the prefix once, and the only
      unprefixed line is the popped empty one at the end. */
  lemma WriteOutputLines(name: string, beginWithNewline: bool, chunk: string)
    requires '\n' !in name
    ensures var kept := Scan(ChunkLines(chunk)).kept;
            var lines := OutputLines(Prefix(name), beginWithNewline, kept);
            |lines| >= 1 ==> Split(WriteResult(Prefix(name), beginWithNewline, chunk).output, '\n') == lines
  {
    ScanKeepsNoNewline(ChunkLines(chunk));
    OutputSplitsBack(Prefix(name), beginWithNewline, Scan(ChunkLines(chunk)).kept);
  }

  /** `WriteOutputLines` for any kept lines free of line breaks. */
  lemma OutputSplitsBack(prefix: string, beginWithNewline: bool, kept: seq<string>)
    requires '\n' !in prefix
    requires forall i :: 0 <= i < |kept| ==> '\n' !in kept[i]
    ensures var lines := OutputLines(prefix, beginWithNewline, kept);
            |lines| >= 1 ==> Split(Join(lines, "\n"), '\n') == lines
  {
    var lines := OutputLines(prefix, beginWithNewline, kept);
    var shown := Shown(beginWithNewline, kept);
    assert forall i :: 0 <= i < |shown| ==> '\n' !in shown[i] by {
      forall i | 0 <= i < |shown| ensures '\n' !in shown[i] {
        if beginWithNewline && i == 0 {
        } else {
          var j := if beginWithNewline then i - 1 else i;
          assert shown[i] == kept[j];
        }
      }
    }
    assert forall i :: 0 <= i < |lines| ==> '\n' !in lines[i] by {
      forall i | 0 <= i < |lines| ensures '\n' !in lines[i] {
        if i < |shown| {
          assert lines[i] == prefix + shown[i];
        }
      }
    }
    if |lines| >= 1 {
      SplitJoin(lines, '\n');
    }
  }

  /** The written text ends in "\n" exactly when a trailing empty line was
      popped and at least one prefixed line precedes it. */
  lemma WriteEndsWithNewline(name: string, beginWithNewline: bool, chunk: string)
    ensures var kept := Scan(ChunkLines(chunk)).kept;
            var out := WriteResult(Prefix(name), beginWithNewline, chunk).output;
            (|out| > 0 && out[|out| - 1] == '\n')
            <==> (EndsWithEmpty(kept) && |Shown(beginWithNewline, kept)| >= 1)
  {
    var kept := Scan(ChunkLines(chunk)).kept;
    ScanKeepsNoNewline(ChunkLines(chunk));
    assert WriteResult(Prefix(name), beginWithNewline, chunk).output
           == Join(OutputLines(Prefix(name), beginWithNewline, kept), "\n");
    OutputEndsWithNewline(Prefix(name), beginWithNewline, kept);
  }

  /** `WriteEndsWithNewline` for any kept lines free of line breaks. */
  lemma OutputEndsWithNewline(prefix: string, beginWithNewline: bool, kept: seq<string>)
    requires prefix == "" || prefix[|prefix| - 1] != '\n'
    requires forall i :: 0 <= i < |kept| ==> '\n' !in kept[i]
    ensures var out := Join(OutputLines(prefix, beginWithNewline, kept), "\n");
            (|out| > 0 && out[|out| - 1] == '\n')
            <==> (EndsWithEmpty(kept) && |Shown(beginWithNewline, kept)| >= 1)
  {
    var shown := Shown(beginWithNewline, kept);
    var ps := seq(|shown|, i requires 0 <= i < |shown| => prefix + shown[i]);
    var lines := OutputLines(prefix, beginWithNewline, kept);
    if EndsWithEmpty(kept) {
      if |shown| >= 1 {
        JoinAppend(ps, [""], "\n");
      } else {
        assert lines == [""];
      }
    } else if |shown| >= 1 {
      assert lines == ps;
      LastShownLine(prefix, beginWithNewline, kept);
    } else {
      assert lines == [];
    }
  }

  /** Without a popped line, the last prefixed line does not end in "\n". */
  lemma LastShownLine(prefix: string, beginWithNewline: bool, kept: seq<string>)
    requires prefix == "" || prefix[|prefix| - 1] != '\n'
    requires forall i :: 0 <= i < |kept| ==> '\n' !in kept[i]
    requires !EndsWithEmpty(kept) && |Shown(beginWithNewline, kept)| >= 1
    ensures var out := Join(OutputLines(prefix, beginWithNewline, kept), "\n");
            out == "" || out[|out| - 1] != '\n'
  {
    var shown := Shown(beginWithNewline, kept);
    var lines := OutputLines(prefix, beginWithNewline, kept);
    var last := shown[|shown| - 1];
    assert lines[|lines| - 1] == prefix + last;
    if |kept| > 0 {
      assert last == kept[|kept| - 1];
      assert (prefix + last)[|prefix + last| - 1] == last[|last| - 1];
      assert last[|last| - 1] in last;
    }
    if prefix + last != "" {
      JoinLast(lines, "\n");
    }
  }

  /** When `beginWithNewline` was set, the output opens with the bare prefix,
      followed by a line break if anything comes after it. */
  lemma WriteBeginsWithBarePrefix(prefix: string, chunk: string)
    ensures var out := WriteResult(prefix, true, chunk).output;
            && |out| >= |prefix| && out[..|prefix|] == prefix
            && (|out| > |prefix| ==> out[|prefix|] == '\n')
  {
    OutputBeginsWithBarePrefix(prefix, Scan(ChunkLines(chunk)).kept);
  }

  /** `WriteBeginsWithBarePrefix` for any kept lines. */
  lemma OutputBeginsWithBarePrefix(prefix: string, kept: seq<string>)
    ensures var out := Join(OutputLines(prefix, true, kept), "\n");
            && |out| >= |prefix| && out[..|prefix|] == prefix
            && (|out| > |prefix| ==> out[|prefix|] == '\n')
  {
    var lines := OutputLines(prefix, true, kept);
    assert lines[0] == prefix;
    if |lines| >= 2 {
      JoinFirst(lines, "\n");
    }
  }

  /** A fragment without a line break is written at once, prefixed, and leaves
      `beginWithNewline` set, so the next write starts with a bare prefix line:
      the continuation of that line gets a prefix of its own. */
  lemma FragmentIsFlushedAtOnce(name: string, fragment: string)
    requires fragment != "" && '\n' !in fragment && BS !in fragment
    ensures WriteResult(Prefix(name), false, fragment) == Written(Prefix(name) + fragment, false)
    ensures NextBeginWithNewline(WriteResult(Prefix(name), false, fragment))
  {
    assert forall i :: !CrlfAt(fragment, i);
    NormalizeCrlfShape(fragment);
    SplitNoSeparator(fragment, '\n');
    assert ChunkLines(fragment) == [fragment];
    assert [fragment][..0] == [];
    assert Scan([fragment]) == Scanned([fragment], false);
    var out := Prefix(name) + fragment;
    assert OutputLines(Prefix(name), false, [fragment]) == [out];
    assert out[|out| - 1] == fragment[|fragment| - 1];
    assert fragment[|fragment| - 1] in fragment;
  }

  /** The other side: a fragment without a newline that rendering changes (a
      progress line drawn with backspaces) sets `tty`, so the writer does not
      mark the next chunk as beginning a fresh line, whatever the state before. */
  lemma ChangedFragmentClearsFlag(name: string, begin: bool, fragment: string)
    requires '\n' !in fragment && Changed(fragment)
    ensures WriteResult(Prefix(name), begin, fragment).tty
    ensures !NextBeginWithNewline(WriteResult(Prefix(name), begin, fragment))
  {
    assert forall i :: !CrlfAt(fragment, i);
    NormalizeCrlfShape(fragment);
    SplitNoSeparator(fragment, '\n');
    assert ChunkLines(fragment) == [fragment];
    assert [fragment][..0] == [];
  }

  // ---------------------------------------------------------------------------
  // The writers
  // ---------------------------------------------------------------------------

  /** The shared `{ beginWithNewline }` record. */
  class LineState {
    var beginWithNewline: bool

    constructor()
      ensures !beginWithNewline
    {
      beginWithNewline := false;
    }
  }

  /** An inner stream: the texts written to it, in order. */
  class Sink {
    var log: seq<string>

    constructor()
      ensures log == []
    {
      log := [];
    }

    method Write(text: string)
      modifies this
      ensures log == old(log) + [text]
    {
      log := log + [text];
    }
  }

  /** What became of a write's callback. */
  datatype CallbackFate = NoCallback | RanHere | HandedToInner

  class PrefixedWritable {
    const prefix: string
    const inner: Sink
    const lineState: LineState

    /** Without a line state of its own the writer gets a fresh one; a given
        one is shared, and its flag left as it is. */
    constructor(prefix: string, inner: Sink, lineState: LineState?)
      ensures this.prefix == prefix && this.inner == inner
      ensures lineState != null ==> this.lineState == lineState
      ensures lineState == null ==> fresh(this.lineState) && !this.lineState.beginWithNewline
    {
      this.prefix := prefix;
      this.inner := inner;
      if lineState == null {
        this.lineState := new LineState();
      } else {
        this.lineState := lineState;
      }
    }

    /** `render(line)`: the cursor walk over the line. */
    method Render(line: string) returns (result: string)
      ensures result == Rendered(line)
      ensures BS !in result
      ensures |result| <= CountNonBackspace(line)
      ensures BS !in line ==> result == line
    {
      result := line;
      if BS in line {
        var index: nat := 0;
        result := "";
        for i := 0 to |line|
          invariant index <= |result|
          invariant Run(Cursor(index, result), line[i..]) == Run(Cursor(0, ""), line)
        {
          var ch := line[i];
          assert line[i..] == [ch] + line[i + 1..];
          if ch == BS {
            if index > 0 {
              index := index - 1;
            }
            continue;
          }
          result := if index < |result|
            then result[..index] + [ch] + result[index + 1..]
            else result + [ch];
          index := index + 1;
        }
      }
      RenderedProperties(line);
    }

    /** The loop of `write`: each line rendered; `tty` set from the first line
        whose rendering differs; from then on blank renderings dropped. */
    method RenderLines(lines: seq<string>) returns (rendered: seq<string>, tty: bool)
      ensures Scanned(rendered, tty) == Scan(lines)
    {
      rendered, tty := [], false;
      for i := 0 to |lines|
        invariant Scan(lines[..i]) == Scanned(rendered, tty)
      {
        assert lines[..i + 1][..i] == lines[..i];
        var result := Render(lines[i]);
        tty := tty || lines[i] != result;
        if !tty || !TrimsToEmpty(result) {
          rendered := rendered + [result];
        }
      }
      assert lines[..|lines|] == lines;
    }

    /** The end of `write`: a trailing empty line popped, a leading "" added
        when `beginWithNewline` is set, every line prefixed, the popped line
        put back bare, all joined with "\n". */
    method Assemble(head: string, begin: bool, kept: seq<string>) returns (output: string)
      ensures output == Join(OutputLines(head, begin, kept), "\n")
    {
      var rendered := kept;
      var popped := false;
      if |rendered| > 0 && rendered[|rendered| - 1] == "" {
        rendered := rendered[..|rendered| - 1];
        popped := true;
      }
      if begin {
        rendered := [""] + rendered;
      }
      assert rendered == Shown(begin, kept);
      var prefixed := seq(|rendered|, k requires 0 <= k < |rendered| => head + rendered[k])
                      + (if popped then [""] else []);
      assert prefixed == OutputLines(head, begin, kept);
      output := Join(prefixed, "\n");
    }

    /** `write(chunk, encoding, callback)`. */
    method Write(chunk: string, hasCallback: bool) returns (fate: CallbackFate)
      modifies inner, lineState
      ensures var w := WriteResult(Prefix(prefix), old(lineState.beginWithNewline), chunk);
              && inner.log == old(inner.log) + (if w.output != "" then [w.output] else [])
              && lineState.beginWithNewline == NextBeginWithNewline(w)
      ensures fate == if hasCallback then RanHere else NoCallback
    {
      var begin := lineState.beginWithNewline;
      var head := if prefix != "" then prefix + "  | " else "";
      var lines := Split(NormalizeCrlf(chunk), '\n');
      var rendered, tty := RenderLines(lines);
      var output := Assemble(head, begin, rendered);
      WriteResultOf(prefix, begin, chunk, rendered, tty, output);
      if output != "" {
        inner.Write(output);
      }
      lineState.beginWithNewline := NextBeginWithNewline(Written(output, tty));
      fate := if hasCallback then RanHere else NoCallback;
    }
  }

  /** A writer that swallows everything while `muted` is set. */
  class MutedWritable {
    const inner: Sink
    var muted: bool

    constructor(inner: Sink)
      ensures this.inner == inner && muted
    {
      this.inner := inner;
      muted := true;
    }

    /** While muted nothing reaches the inner stream, but the callback runs;
        otherwise chunk and callback are handed to the inner stream. */
    method Write(chunk: string, hasCallback: bool) returns (fate: CallbackFate)
      modifies inner
      ensures muted ==> inner.log == old(inner.log)
      ensures !muted ==> inner.log == old(inner.log) + [chunk]
      ensures fate == if !hasCallback then NoCallback else if muted then RanHere else HandedToInner
    {
      if !muted {
        inner.Write(chunk);
        fate := if hasCallback then HandedToInner else NoCallback;
      } else {
        fate := if hasCallback then RanHere else NoCallback;
      }
    }
  }

  /** A writer that forwards the chunk's text unchanged. */
  class StrippedWritable {
    const inner: Sink

    constructor(inner: Sink)
      ensures this.inner == inner
    {
      this.inner := inner;
    }

    method Write(chunk: string, hasCallback: bool) returns (fate: CallbackFate)
      modifies inner
      ensures inner.log == old(inner.log) + [chunk]
      ensures fate == if hasCallback then RanHere else NoCallback
    {
      inner.Write(chunk);
      fate := if hasCallback then RanHere else NoCallback;
    }
  }
}
