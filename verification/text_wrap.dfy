/**
 * The word-wrapping text layout of src/GFXTextUtil.cpp: `charWidth`,
 * `charDescent` and `drawWordWrappedText`, which walks a C string once,
 * measuring glyphs, and prints it line by line into a bounding box, breaking
 * at spaces, at newlines, before a word that does not fit, or inside a word
 * longer than a line.
 *
 * The display (`Adafruit_GFX`) is a log of the calls made on it.  The walk
 * is specified one step at a time by `Step`, a function of the scan state,
 * and `Run` collects what the steps emit, up to a `return` or up to the
 * point where the source goes on to read past the terminator (`Overruns`);
 * the loop of `DrawWordWrappedText` is proved to make exactly those calls.
 */
module TextWrap {

  import opened Watchy

  // ---------------------------------------------------------------------
  // Fonts (src/GFXTextUtil.cpp:15-42)

  /** The fields of `GFXglyph` the layout reads. */
  datatype Glyph = Glyph(xAdvance: int, yOffset: int, height: int)

  /** `GFXfont`: glyphs for the characters `first..last`, and the line height. */
  datatype Font = Font(first: int, last: int, glyphs: seq<Glyph>, yAdvance: int)

  /** A font whose glyph table covers its range, with the field widths of `GFXglyph` and `GFXfont`. */
  predicate ValidFont(f: Font)
  {
    0 <= f.first <= f.last + 1 && |f.glyphs| == f.last - f.first + 1 && 0 <= f.yAdvance < 0x100 &&
    forall g :: g in f.glyphs ==> 0 <= g.xAdvance < 0x100 && -0x80 <= g.yOffset < 0x80 && 0 <= g.height < 0x100
  }

  /** `charWidth(c, f)`: the glyph's advance, and 0 for a character outside the font. */
  function CharWidth(c: char, f: Font): (r: int)
    requires ValidFont(f)
    ensures c as int < f.first || c as int > f.last ==> r == 0
    ensures f.first <= c as int <= f.last ==> r == f.glyphs[c as int - f.first].xAdvance
    ensures 0 <= r < 0x100
  {
    if c as int < f.first then 0
    else if c as int > f.last then 0
    else f.glyphs[c as int - f.first].xAdvance
  }

  /** `charDescent(c, f)`: how far the glyph reaches below the baseline, and 0 outside the font. */
  function CharDescent(c: char, f: Font): (r: int)
    requires ValidFont(f)
    ensures c as int < f.first || c as int > f.last ==> r == 0
    ensures f.first <= c as int <= f.last ==> r == f.glyphs[c as int - f.first].yOffset + f.glyphs[c as int - f.first].height
    ensures -0x80 <= r < 0x17f
  {
    if c as int < f.first then 0
    else if c as int > f.last then 0
    else
      var g := f.glyphs[c as int - f.first];
      g.yOffset + g.height
  }

  /** `isspace`/`isSpace`: the six white-space characters of the C locale. */
  predicate IsSpace(c: char)
  {
    c == ' ' || c == '\t' || c == '\n' || c == '\U{B}' || c == '\U{C}' || c == '\r'
  }

  // ---------------------------------------------------------------------
  // C strings

  /** The index of the terminator of a C string. */
  function NulPos(s: string): (n: nat)
    requires '\0' in s
    ensures n < |s| && s[n] == '\0'
    ensures forall k :: 0 <= k < n ==> s[k] != '\0'
  {
    if s[0] == '\0' then 0 else 1 + NulPos(s[1..])
  }

  /** `while (isspace(*t) && *t != '\n') t++`: the first index from `t` on that is not such a blank. */
  function SkipBlanks(s: string, t: nat): (r: nat)
    requires '\0' in s && t <= NulPos(s)
    ensures t <= r <= NulPos(s)
    ensures !IsSpace(s[r]) || s[r] == '\n'
    ensures forall k :: t <= k < r ==> IsSpace(s[k]) && s[k] != '\n'
    decreases NulPos(s) - t
  {
    if IsSpace(s[t]) && s[t] != '\n' then SkipBlanks(s, t + 1) else t
  }

  // ---------------------------------------------------------------------
  // The layout, one step at a time (src/GFXTextUtil.cpp:56-143)

  /** The bounding box: its upper-left corner, width and height. */
  datatype Box = Box(x: int, y: int, w: int, h: int)

  /** The scan variables: `t`, `startLine`, `wordBreak`, `wordBreakXPos`, `xPos`, `yPos` and `inWord`. */
  datatype Scan = Scan(t: nat, startLine: nat, wordBreak: nat, wordBreakXPos: int, xPos: int, yPos: int, inWord: bool)

  /** What a step asks of the display: a cursor move, or the character at a position of the text. */
  datatype Out = Cursor(cx: int, cy: int) | Char(pos: nat)

  /** The state before the first character: everything at the start, and the first baseline one line down. */
  function Init(f: Font): Scan
  {
    Scan(0, 0, 0, 0, 0, f.yAdvance, false)
  }

  /** A state the walk can be in: the next character to read, the line start and the word break lie within the text. */
  predicate Wf(s: string, st: Scan)
  {
    '\0' in s && st.startLine <= st.t <= NulPos(s) && st.wordBreak <= st.t
  }

  /** The characters at positions `from` up to `to`, in order. */
  function Chars(from: nat, to: nat): (o: seq<Out>)
    ensures |o| == if from <= to then to - from else 0
    ensures forall k :: 0 <= k < |o| ==> o[k] == Char(from + k)
    decreases (to as int) - from
  {
    if from >= to then [] else [Char(from)] + Chars(from + 1, to)
  }

  /** A new line: the cursor at the left edge on the current baseline, then the characters `from..to`. */
  function Line(b: Box, st: Scan, from: nat, to: nat): seq<Out>
  {
    [Cursor(b.x, b.y + st.yPos)] + Chars(from, to)
  }

  /**
   * The state after breaking at an overflowing space, as the source has
   * it: the trailing blanks and one newline are consumed, the new line
   * starts after them with the space's width as its width so far, and the
   * `continue` moves one further before the next read, whether or not the
   * new line start is the terminator.
   */
  function SpaceBreakAsWritten(s: string, f: Font, st: Scan, cw: int): (next: Scan)
    requires Wf(s, st) && st.t < NulPos(s) && IsSpace(s[st.t]) && s[st.t] != '\n'
    ensures st.t < next.startLine <= NulPos(s) && next.t == next.startLine + 1
    ensures forall k :: st.t <= k < next.startLine ==> IsSpace(s[k])
    ensures next.xPos == cw && next.yPos == st.yPos + f.yAdvance
    ensures next.wordBreak == st.wordBreak && next.wordBreakXPos == st.wordBreakXPos && next.inWord == st.inWord
  {
    var t1 := SkipBlanks(s, st.t);
    var t2 := if s[t1] == '\n' then t1 + 1 else t1;
    st.(t := t2 + 1, startLine := t2, yPos := st.yPos + f.yAdvance, xPos := cw)
  }

  /**
   * The break at an overflowing space, corrected: the same as written
   * while the new line starts before the terminator, and the end of the
   * walk (`None`) when the consumed blanks reach it, instead of a read one
   * past it.
   */
  function SpaceBreak(s: string, f: Font, st: Scan, cw: int): (r: Option<Scan>)
    requires Wf(s, st) && st.t < NulPos(s) && IsSpace(s[st.t]) && s[st.t] != '\n'
    ensures r.None? <==> var t1 := SkipBlanks(s, st.t); t1 == NulPos(s) || (s[t1] == '\n' && t1 + 1 == NulPos(s))
    ensures r.Some? ==> Wf(s, r.value) && r.value.t > st.t && r.value == SpaceBreakAsWritten(s, f, st, cw)
  {
    var next := SpaceBreakAsWritten(s, f, st, cw);
    if next.startLine == NulPos(s) then None else Some(next)
  }

  /**
   * One step: what it emits, and the state the next step reads from; or
   * the end of the walk; or, `Overrun`, the end of what the model follows,
   * where the source goes on to read past the terminator.
   */
  datatype StepResult = Continue(out: seq<Out>, next: Scan) | Stop(out: seq<Out>) | Overrun(out: seq<Out>)

  /** One turn of the `for` loop of `drawWordWrappedText`. */
  function Step(s: string, f: Font, b: Box, st: Scan): (r: StepResult)
    requires ValidFont(f) && Wf(s, st)
    ensures r.Continue? ==> Wf(s, r.next) && r.next.t > st.t
    ensures r.Overrun? ==> st.t < NulPos(s) && IsSpace(s[st.t])
  {
    var c := s[st.t];
    if c == '\0' then
      Stop(Line(b, st, st.startLine, NulPos(s)))
    else if c == '\n' then
      Continue(Line(b, st, st.startLine, st.t),
               st.(t := st.t + 1, startLine := st.t + 1, yPos := st.yPos + f.yAdvance, inWord := false, xPos := 0))
    else
      var cw := CharWidth(c, f);
      if st.xPos + cw > b.w then
        Overflow(s, f, b, st, cw)
      else if st.yPos + CharDescent(c, f) > b.h then
        Stop([])
      else if IsSpace(c) then
        Continue([], st.(t := st.t + 1, inWord := false, wordBreak := st.t + 1, wordBreakXPos := st.xPos + cw,
                         xPos := st.xPos + cw))
      else if !st.inWord then
        Continue([], st.(t := st.t + 1, inWord := true, wordBreak := st.t, wordBreakXPos := st.xPos,
                         xPos := st.xPos + cw))
      else
        Continue([], st.(t := st.t + 1, xPos := st.xPos + cw))
  }

  /**
   * The character at `st.t`, of width `cw`, does not fit on the line: break
   * at it if it is a space, hard-break a word longer than the line, or
   * else break before the word it belongs to.  Only the break at a space
   * can overrun.
   */
  function Overflow(s: string, f: Font, b: Box, st: Scan, cw: int): (r: StepResult)
    requires Wf(s, st) && st.t < NulPos(s) && s[st.t] != '\n'
    ensures !r.Stop? && (r.Continue? ==> Wf(s, r.next) && r.next.t > st.t)
    ensures r.Overrun? ==> IsSpace(s[st.t])
  {
    if IsSpace(s[st.t]) then
      match SpaceBreak(s, f, st, cw)
      case None => Overrun(Line(b, st, st.startLine, st.t))
      case Some(next) => Continue(Line(b, st, st.startLine, st.t), next)
    else if st.startLine == st.wordBreak then
      Continue(Line(b, st, st.startLine, st.t),
               st.(t := st.t + 1, startLine := st.t, wordBreak := st.t, yPos := st.yPos + f.yAdvance,
                   xPos := cw, wordBreakXPos := cw))
    else
      var start := if st.startLine < st.wordBreak then st.wordBreak else st.startLine;
      Continue(Line(b, st, st.startLine, st.wordBreak),
               st.(t := st.t + 1, startLine := start, yPos := st.yPos + f.yAdvance,
                   xPos := st.xPos - st.wordBreakXPos + cw, wordBreakXPos := 0))
  }

  /** Everything the walk emits from state `st` until it returns, or until it overruns. */
  function Run(s: string, f: Font, b: Box, st: Scan): seq<Out>
    requires ValidFont(f) && Wf(s, st)
    decreases NulPos(s) - st.t, 1
  {
    After(s, f, b, st, Step(s, f, b, st))
  }

  /** What the walk emits once a step from `st` has given `r`: its output, then the rest of the walk. */
  function After(s: string, f: Font, b: Box, st: Scan, r: StepResult): seq<Out>
    requires ValidFont(f) && Wf(s, st) && (r.Continue? ==> Wf(s, r.next) && r.next.t > st.t)
    decreases NulPos(s) - st.t, 0
  {
    match r
    case Stop(o) => o
    case Overrun(o) => o
    case Continue(o, next) => o + Run(s, f, b, next)
  }

  /** `Run` one step at a time. */
  lemma RunUnfold(s: string, f: Font, b: Box, st: Scan)
    requires ValidFont(f) && Wf(s, st)
    ensures !Step(s, f, b, st).Continue? ==> Run(s, f, b, st) == Step(s, f, b, st).out
    ensures Step(s, f, b, st).Continue? ==>
              Run(s, f, b, st) == Step(s, f, b, st).out + Run(s, f, b, Step(s, f, b, st).next)
  {
  }

  /** `Overruns` one step at a time. */
  lemma OverrunsUnfold(s: string, f: Font, b: Box, st: Scan)
    requires ValidFont(f) && Wf(s, st)
    ensures !Step(s, f, b, st).Continue? ==> Overruns(s, f, b, st) == Step(s, f, b, st).Overrun?
    ensures Step(s, f, b, st).Continue? ==> Overruns(s, f, b, st) == Overruns(s, f, b, Step(s, f, b, st).next)
  {
  }

  /** Whether the walk from `st` ends by reading past the terminator rather than at a `return`. */
  predicate Overruns(s: string, f: Font, b: Box, st: Scan)
    requires ValidFont(f) && Wf(s, st)
    decreases NulPos(s) - st.t
  {
    match Step(s, f, b, st)
    case Stop(_) => false
    case Overrun(_) => true
    case Continue(_, next) => Overruns(s, f, b, next)
  }

  // ---------------------------------------------------------------------
  // What the layout guarantees

  /** The baselines of the cursor moves in `o`, in order. */
  function Baselines(o: seq<Out>): seq<int>
  {
    if o == [] then [] else (if o[0].Cursor? then [o[0].cy] else []) + Baselines(o[1..])
  }

  /** `n` values from `start`, each `step` above the one before. */
  function Ladder(start: int, step: int, n: nat): (r: seq<int>)
    ensures |r| == n
    decreases n
  {
    if n == 0 then [] else [start] + Ladder(start + step, step, n - 1)
  }

  /** The `k`-th rung of a ladder. */
  lemma {:induction false} LadderAt(start: int, step: int, n: nat, k: nat)
    requires k < n
    ensures Ladder(start, step, n)[k] == start + k * step
    decreases n
  {
    if k > 0 {
      LadderAt(start + step, step, n - 1, k - 1);
      MulStep(k, step);
    }
  }

  lemma MulStep(k: int, step: int)
    ensures (k - 1) * step + step == k * step
  {
  }

  lemma BaselinesAppend(a: seq<Out>, c: seq<Out>)
    ensures Baselines(a + c) == Baselines(a) + Baselines(c)
    decreases |a|
  {
    if a != [] {
      assert (a + c)[0] == a[0] && (a + c)[1..] == a[1..] + c;
      BaselinesAppend(a[1..], c);
      var h := if a[0].Cursor? then [a[0].cy] else [];
      assert Baselines(a + c) == h + Baselines(a[1..] + c);
      assert Baselines(a) == h + Baselines(a[1..]);
    } else {
      assert a + c == c;
    }
  }

  lemma {:induction false} BaselinesOfChars(from: nat, to: nat)
    ensures Baselines(Chars(from, to)) == []
    decreases (to as int) - from
  {
    if from < to {
      assert Chars(from, to)[1..] == Chars(from + 1, to);
      BaselinesOfChars(from + 1, to);
    }
  }

  /** A step emits at most one cursor move, on the current baseline, and then the baseline moves down one line. */
  lemma StepBaselines(s: string, f: Font, b: Box, st: Scan, r: StepResult)
    requires ValidFont(f) && Wf(s, st) && r == Step(s, f, b, st)
    ensures !r.Continue? ==> Baselines(r.out) == [] || Baselines(r.out) == [b.y + st.yPos]
    ensures r.Continue? && r.out == [] ==> r.next.yPos == st.yPos && Baselines(r.out) == []
    ensures r.Continue? && r.out != [] ==> r.next.yPos == st.yPos + f.yAdvance && Baselines(r.out) == [b.y + st.yPos]
  {
    forall from: nat, to: nat
      ensures Baselines(Line(b, st, from, to)) == [b.y + st.yPos]
    {
      LineBaselines(b, st, from, to);
    }
  }

  lemma LineBaselines(b: Box, st: Scan, from: nat, to: nat)
    ensures Baselines(Line(b, st, from, to)) == [b.y + st.yPos]
  {
    BaselinesAppend([Cursor(b.x, b.y + st.yPos)], Chars(from, to));
    BaselinesOfChars(from, to);
  }

  /**
   * Line baselines step down one `yAdvance` at a time: the `k`-th line the
   * walk emits from `st` sits at `y + yPos + k * yAdvance`.
   */
  lemma {:induction false} RunBaselines(s: string, f: Font, b: Box, st: Scan)
    requires ValidFont(f) && Wf(s, st)
    ensures Baselines(Run(s, f, b, st)) == Ladder(b.y + st.yPos, f.yAdvance, |Baselines(Run(s, f, b, st))|)
    decreases NulPos(s) - st.t
  {
    var r := Step(s, f, b, st);
    if r.Continue? {
      RunBaselines(s, f, b, r.next);
    }
    StepThenLadder(s, f, b, st, r);
  }

  /** One step in front of a ladder that starts where the step leaves the baseline is a ladder. */
  lemma StepThenLadder(s: string, f: Font, b: Box, st: Scan, r: StepResult)
    requires ValidFont(f) && Wf(s, st) && r == Step(s, f, b, st)
    requires r.Continue? ==> Baselines(Run(s, f, b, r.next)) ==
                             Ladder(b.y + r.next.yPos, f.yAdvance, |Baselines(Run(s, f, b, r.next))|)
    ensures Baselines(Run(s, f, b, st)) == Ladder(b.y + st.yPos, f.yAdvance, |Baselines(Run(s, f, b, st))|)
  {
    StepBaselines(s, f, b, st, r);
    RunUnfold(s, f, b, st);
    if !r.Continue? {
      LadderOfStop(Baselines(r.out), b.y + st.yPos, f.yAdvance);
    } else {
      var rest := Run(s, f, b, r.next);
      assert Run(s, f, b, st) == r.out + rest;
      LadderOfContinue(r.out, rest, b.y + st.yPos, b.y + r.next.yPos, f.yAdvance);
    }
  }

  lemma LadderOfStop(ys: seq<int>, y: int, step: int)
    requires ys == [] || ys == [y]
    ensures ys == Ladder(y, step, |ys|)
  {
    assert Ladder(y, step, 1) == [y] + Ladder(y + step, step, 0);
  }

  /** A step's baselines followed by a ladder starting where it leaves the baseline form a ladder. */
  lemma LadderOfContinue(o: seq<Out>, rest: seq<Out>, y: int, ny: int, step: int)
    requires o == [] ==> ny == y && Baselines(o) == []
    requires o != [] ==> ny == y + step && Baselines(o) == [y]
    requires Baselines(rest) == Ladder(ny, step, |Baselines(rest)|)
    ensures Baselines(o + rest) == Ladder(y, step, |Baselines(o + rest)|)
  {
    BaselinesAppend(o, rest);
    if o != [] {
      assert Ladder(y, step, 1 + |Baselines(rest)|) == [y] + Ladder(y + step, step, |Baselines(rest)|);
    }
  }

  /**
   * Every line starts at the left edge of the box, and the `k`-th line
   * (counting from 1) sits on the baseline `y + k * yAdvance`.
   */
  lemma LinesOnBaselines(s: string, f: Font, b: Box, k: nat)
    requires ValidFont(f) && '\0' in s
    ensures forall o :: o in Run(s, f, b, Init(f)) && o.Cursor? ==> o.cx == b.x
    ensures k < |Baselines(Run(s, f, b, Init(f)))| ==>
              Baselines(Run(s, f, b, Init(f)))[k] == b.y + (k + 1) * f.yAdvance
  {
    LeftEdge(s, f, b, Init(f));
    RunBaselines(s, f, b, Init(f));
    if k < |Baselines(Run(s, f, b, Init(f)))| {
      LadderAt(b.y + f.yAdvance, f.yAdvance, |Baselines(Run(s, f, b, Init(f)))|, k);
    }
  }

  lemma {:induction false} LeftEdge(s: string, f: Font, b: Box, st: Scan)
    requires ValidFont(f) && Wf(s, st)
    ensures forall o :: o in Run(s, f, b, st) && o.Cursor? ==> o.cx == b.x
    decreases NulPos(s) - st.t
  {
    match Step(s, f, b, st)
    case Stop(o) =>
    case Overrun(o) =>
    case Continue(o, next) =>
      LeftEdge(s, f, b, next);
  }

  /** The positions of the characters printed, in order. */
  function Positions(o: seq<Out>): seq<nat>
  {
    if o == [] then [] else (if o[0].Char? then [o[0].pos] else []) + Positions(o[1..])
  }

  /** Strictly increasing positions, all within `lo..hi - 1`. */
  predicate Increasing(p: seq<nat>, lo: nat, hi: nat)
  {
    (forall i :: 0 <= i < |p| ==> lo <= p[i] < hi) && (forall i, j :: 0 <= i < j < |p| ==> p[i] < p[j])
  }

  lemma PositionsAppend(a: seq<Out>, c: seq<Out>)
    ensures Positions(a + c) == Positions(a) + Positions(c)
    decreases |a|
  {
    if a != [] {
      assert (a + c)[0] == a[0] && (a + c)[1..] == a[1..] + c;
      PositionsAppend(a[1..], c);
      var h := if a[0].Char? then [a[0].pos] else [];
      assert Positions(a + c) == h + Positions(a[1..] + c);
      assert Positions(a) == h + Positions(a[1..]);
    } else {
      assert a + c == c;
    }
  }

  lemma {:induction false} PositionsOfChars(from: nat, to: nat)
    ensures |Positions(Chars(from, to))| == |Chars(from, to)|
    ensures forall k :: 0 <= k < |Positions(Chars(from, to))| ==> Positions(Chars(from, to))[k] == from + k
    decreases (to as int) - from
  {
    if from < to {
      assert Chars(from, to)[1..] == Chars(from + 1, to);
      PositionsOfChars(from + 1, to);
    }
  }

  /** What a step prints lies between the line start and the next line start, in order. */
  lemma StepPositions(s: string, f: Font, b: Box, st: Scan)
    requires ValidFont(f) && Wf(s, st)
    ensures var r := Step(s, f, b, st);
            Increasing(Positions(r.out), st.startLine, if r.Continue? then r.next.startLine else NulPos(s))
  {
    var hi := if Step(s, f, b, st).Continue? then Step(s, f, b, st).next.startLine else NulPos(s);
    forall from: nat, to: nat | from < to ==> st.startLine <= from && to <= hi
      ensures Increasing(Positions(Line(b, st, from, to)), st.startLine, hi)
    {
      LinePositions(b, st, from, to, st.startLine, hi);
    }
  }

  /** A line prints the positions `from..to - 1` in order. */
  lemma LinePositions(b: Box, st: Scan, from: nat, to: nat, lo: nat, hi: nat)
    requires from < to ==> lo <= from && to <= hi
    ensures Increasing(Positions(Line(b, st, from, to)), lo, hi)
  {
    PositionsAppend([Cursor(b.x, b.y + st.yPos)], Chars(from, to));
    PositionsOfChars(from, to);
    assert Positions([Cursor(b.x, b.y + st.yPos)]) == [];
  }

  lemma IncreasingAppend(p: seq<nat>, q: seq<nat>, lo: nat, mid: nat, hi: nat)
    requires lo <= mid <= hi && Increasing(p, lo, mid) && Increasing(q, mid, hi)
    ensures Increasing(p + q, lo, hi)
  {
    forall i | 0 <= i < |p + q|
      ensures lo <= (p + q)[i] < hi
    {
      if i < |p| {
        assert (p + q)[i] == p[i];
      } else {
        assert (p + q)[i] == q[i - |p|];
      }
    }
    forall i, j | 0 <= i < j < |p + q|
      ensures (p + q)[i] < (p + q)[j]
    {
      if j < |p| {
      } else if i < |p| {
        assert (p + q)[i] == p[i] && (p + q)[j] == q[j - |p|];
      } else {
        assert (p + q)[i] == q[i - |p|] && (p + q)[j] == q[j - |p|];
      }
    }
  }

  /**
   * Every character printed from `st` on is a distinct position of the
   * text at or after the line start and before the terminator, in
   * increasing order: `startLine` only moves forward.
   */
  lemma {:induction false} RunPositions(s: string, f: Font, b: Box, st: Scan)
    requires ValidFont(f) && Wf(s, st)
    ensures Increasing(Positions(Run(s, f, b, st)), st.startLine, NulPos(s))
    decreases NulPos(s) - st.t
  {
    StepPositions(s, f, b, st);
    match Step(s, f, b, st)
    case Stop(o) =>
    case Overrun(o) =>
    case Continue(o, next) =>
      RunPositions(s, f, b, next);
      PositionsAppend(o, Run(s, f, b, next));
      IncreasingAppend(Positions(o), Positions(Run(s, f, b, next)), st.startLine, next.startLine, NulPos(s));
  }

  /** The printed text is a subsequence of the string: each character at most once, in the order of the string. */
  lemma PrintsSubsequence(s: string, f: Font, b: Box)
    requires ValidFont(f) && '\0' in s
    ensures Increasing(Positions(Run(s, f, b, Init(f))), 0, NulPos(s))
  {
    RunPositions(s, f, b, Init(f));
  }

  /** A character that fits the width but reaches below the box ends the walk, without printing the pending line. */
  lemma StopsBelowBox(s: string, f: Font, b: Box, st: Scan)
    requires ValidFont(f) && Wf(s, st) && st.t < NulPos(s) && s[st.t] != '\n'
    requires st.xPos + CharWidth(s[st.t], f) <= b.w && st.yPos + CharDescent(s[st.t], f) > b.h
    ensures Run(s, f, b, st) == []
  {
  }

  // ---------------------------------------------------------------------
  // The overread after a space break

  /**
   * As written, when the blanks after an overflowing space run up to the
   * terminator, the next read is one past the terminator; corrected, the
   * walk ends there.
   */
  lemma SpaceBreakPastTerminator(s: string, f: Font, st: Scan, cw: int)
    requires Wf(s, st) && st.t < NulPos(s) && IsSpace(s[st.t]) && s[st.t] != '\n'
    requires SkipBlanks(s, st.t) == NulPos(s)
    ensures SpaceBreakAsWritten(s, f, st, cw).t == NulPos(s) + 1
    ensures SpaceBreak(s, f, st, cw).None?
  {
  }

  /** A step overruns only at the end of a text whose last character is white space. */
  lemma StepOverrun(s: string, f: Font, b: Box, st: Scan)
    requires ValidFont(f) && Wf(s, st) && Step(s, f, b, st).Overrun?
    ensures NulPos(s) > 0 && IsSpace(s[NulPos(s) - 1])
  {
    var cw := CharWidth(s[st.t], f);
    assert SpaceBreak(s, f, st, cw).None?;
    var next := SpaceBreakAsWritten(s, f, st, cw);
    assert next.startLine == NulPos(s);
  }

  /**
   * The walk reads past the terminator only when the text ends in white
   * space: a text whose last character is not a blank is laid out to a
   * `return`.
   */
  lemma {:induction false} OverrunsOnlyAfterBlank(s: string, f: Font, b: Box, st: Scan)
    requires ValidFont(f) && Wf(s, st)
    ensures Overruns(s, f, b, st) ==> NulPos(s) > 0 && IsSpace(s[NulPos(s) - 1])
    decreases NulPos(s) - st.t
  {
    match Step(s, f, b, st)
    case Stop(o) =>
    case Overrun(o) =>
      StepOverrun(s, f, b, st);
    case Continue(o, next) =>
      OverrunsOnlyAfterBlank(s, f, b, next);
  }

  /** A font of one-pixel glyphs for the printable ASCII range. */
  const Narrow := Font(32, 126, seq(95, _ => Glyph(1, 0, 1)), 10)

  /**
   * "ab " in a box two pixels wide: "ab" fills the line, the space
   * overflows it, and the blanks after it reach the terminator at index 3,
   * so the code as written next reads index 4, outside the string.
   */
  lemma OverreadExample()
    ensures var s := "ab \0";
            var b := Box(0, 0, 2, 100);
            var st2 := Scan(2, 0, 0, 0, 2, 10, true);
            ValidFont(Narrow) && Wf(s, Init(Narrow)) &&
            Step(s, Narrow, b, Init(Narrow)) == Continue([], Scan(1, 0, 0, 0, 1, 10, true)) &&
            Step(s, Narrow, b, Scan(1, 0, 0, 0, 1, 10, true)) == Continue([], st2) &&
            st2.xPos + CharWidth(s[2], Narrow) > b.w && IsSpace(s[2]) &&
            SpaceBreakAsWritten(s, Narrow, st2, 1).t == |s| &&
            Step(s, Narrow, b, st2) == Overrun([Cursor(0, 10), Char(0), Char(1)]) &&
            Overruns(s, Narrow, b, Init(Narrow))
  {
    var s := "ab \0";
    assert NulPos(s) == 3;
    assert Narrow.glyphs[97 - 32] == Glyph(1, 0, 1) && Narrow.glyphs[98 - 32] == Glyph(1, 0, 1);
    assert Narrow.glyphs[32 - 32] == Glyph(1, 0, 1);
    assert SkipBlanks(s, 2) == 3;
    assert Chars(0, 2) == [Char(0), Char(1)];
  }

  /** One-pixel glyphs for the printable ASCII range, except a `W` three pixels wide. */
  const WideW := Font(32, 126, seq(95, i => if i == 87 - 32 then Glyph(3, 0, 1) else Glyph(1, 0, 1)), 10)

  /** The widths `WideW` gives the characters of the example below. */
  lemma WideWGlyphs()
    ensures ValidFont(WideW)
    ensures CharWidth('a', WideW) == 1 && CharDescent('a', WideW) == 1 && CharWidth(' ', WideW) == 1
  {
    assert WideW.glyphs[97 - 32] == Glyph(1, 0, 1) && WideW.glyphs[32 - 32] == Glyph(1, 0, 1);
    forall g | g in WideW.glyphs
      ensures g == Glyph(1, 0, 1) || g == Glyph(3, 0, 1)
    {
      var i :| 0 <= i < |WideW.glyphs| && WideW.glyphs[i] == g;
    }
  }

  /** The characters of the example below, and where its terminator is. */
  lemma SpaceBreakExampleText(s: string)
    requires s == "aaa Wa\0"
    ensures '\0' in s && NulPos(s) == 6 && s[0] == 'a' && s[1] == 'a' && s[2] == 'a' && s[3] == ' ' && s[4] == 'W' && s[5] == 'a'
  {
    assert s[0] != '\0' && s[1..] == "aa Wa\0";
    assert NulPos(s[1..][1..][1..][1..][1..][1..]) == 0;
  }

  /** In the example below, the three `a`s fit the box and print nothing yet. */
  lemma SpaceBreakExampleWord(s: string, f: Font, b: Box)
    requires s == "aaa Wa\0" && f == WideW && b == Box(0, 0, 3, 100)
    ensures ValidFont(f) && Wf(s, Init(f)) && Run(s, f, b, Init(f)) == Run(s, f, b, Scan(3, 0, 0, 0, 3, 10, true))
  {
    WideWGlyphs();
    SpaceBreakExampleText(s);
    RunUnfold(s, f, b, Init(f));
    RunUnfold(s, f, b, Scan(1, 0, 0, 0, 1, 10, true));
    RunUnfold(s, f, b, Scan(2, 0, 0, 0, 2, 10, true));
  }

  /** In the example below, the space overflows and breaks the first line, and the next read is the `a` after the `W`. */
  lemma SpaceBreakExampleBreak(s: string, f: Font, b: Box)
    requires s == "aaa Wa\0" && f == WideW && b == Box(0, 0, 3, 100)
    ensures ValidFont(f) && Wf(s, Scan(3, 0, 0, 0, 3, 10, true))
    ensures Run(s, f, b, Scan(3, 0, 0, 0, 3, 10, true)) ==
            [Cursor(0, 10), Char(0), Char(1), Char(2)] + Run(s, f, b, Scan(5, 4, 0, 0, 1, 20, true))
  {
    WideWGlyphs();
    SpaceBreakExampleText(s);
    assert SkipBlanks(s, 3) == 4;
    assert Chars(0, 3) == [Char(0), Char(1), Char(2)];
    RunUnfold(s, f, b, Scan(3, 0, 0, 0, 3, 10, true));
  }

  /** In the example below, the second line: the `a` after the `W` fits, and the terminator prints "Wa". */
  lemma SpaceBreakExampleEnd(s: string, f: Font, b: Box)
    requires s == "aaa Wa\0" && f == WideW && b == Box(0, 0, 3, 100)
    ensures ValidFont(f) && Wf(s, Scan(5, 4, 0, 0, 1, 20, true))
    ensures Run(s, f, b, Scan(5, 4, 0, 0, 1, 20, true)) == [Cursor(0, 20), Char(4), Char(5)]
  {
    WideWGlyphs();
    SpaceBreakExampleText(s);
    assert Chars(4, 6) == [Char(4), Char(5)];
    RunUnfold(s, f, b, Scan(5, 4, 0, 0, 1, 20, true));
    RunUnfold(s, f, b, Scan(6, 4, 0, 0, 2, 20, true));
  }

  /**
   * "aaa Wa" in a box three pixels wide: the space overflows the full first
   * line, the second line starts at the `W`, which is printed without being
   * measured, and the `a` after it is measured from the space's width, so
   * "Wa" fits on the second line.
   */
  lemma SpaceBreakExample(s: string, f: Font, b: Box)
    requires s == "aaa Wa\0" && f == WideW && b == Box(0, 0, 3, 100)
    ensures ValidFont(f) && Wf(s, Init(f))
    ensures Run(s, f, b, Init(f)) == [Cursor(0, 10), Char(0), Char(1), Char(2), Cursor(0, 20), Char(4), Char(5)]
  {
    SpaceBreakExampleWord(s, f, b);
    SpaceBreakExampleBreak(s, f, b);
    SpaceBreakExampleEnd(s, f, b);
  }

  // ---------------------------------------------------------------------
  // The display and the loop

  /** The `Adafruit_GFX` calls the layout makes. */
  datatype GfxCall = SetFont(font: Font) | SetTextWrap(wrap: bool) | SetCursor(x: int, y: int) | Print(c: char)

  /** The display call for one thing the walk emits. */
  function Call(s: string, o: Out): GfxCall
  {
    match o
    case Cursor(cx, cy) => SetCursor(cx, cy)
    case Char(p) => Print(if p < |s| then s[p] else '\0')
  }

  /** The display calls for what the walk emits. */
  function Render(s: string, o: seq<Out>): seq<GfxCall>
  {
    if o == [] then [] else [Call(s, o[0])] + Render(s, o[1..])
  }

  lemma RenderAppend(s: string, a: seq<Out>, c: seq<Out>)
    ensures Render(s, a + c) == Render(s, a) + Render(s, c)
    decreases |a|
  {
    if a != [] {
      assert (a + c)[0] == a[0] && (a + c)[1..] == a[1..] + c;
      RenderAppend(s, a[1..], c);
      assert Render(s, a + c) == [Call(s, a[0])] + Render(s, a[1..] + c);
    } else {
      assert a + c == c;
    }
  }

  /** The display: everything done to it, in order. */
  class Gfx {
    var calls: seq<GfxCall>

    constructor ()
      ensures calls == []
    {
      calls := [];
    }

    /** The `for` loops that print `*startLine` while `startLine < end`. */
    method PrintRange(s: string, from: nat, to: nat)
      requires from <= to <= |s|
      modifies this
      ensures calls == old(calls) + Render(s, Chars(from, to))
    {
      var i := from;
      while i < to
        invariant from <= i <= to
        invariant calls + Render(s, Chars(i, to)) == old(calls) + Render(s, Chars(from, to))
        decreases (to as int) - i
      {
        assert Chars(i, to) == [Char(i)] + Chars(i + 1, to);
        RenderAppend(s, [Char(i)], Chars(i + 1, to));
        calls := calls + [Print(s[i])];
        i := i + 1;
      }
    }

    /**
     * `drawWordWrappedText(g, x, y, w, h, t, f)` (src/GFXTextUtil.cpp:56-143).
     * A null text (`None`) does nothing, not even select the font.  Where
     * the source goes on to read past the terminator, the model returns
     * and reports it in `overran`.
     */
    method DrawWordWrappedText(b: Box, text: Option<string>, f: Font) returns (overran: bool)
      requires ValidFont(f) && (text.Some? ==> '\0' in text.value)
      modifies this
      ensures text.None? ==> calls == old(calls) && !overran
      ensures text.Some? ==> calls == old(calls) + [SetFont(f), SetTextWrap(false)] + Render(text.value, Run(text.value, f, b, Init(f)))
      ensures text.Some? ==> overran == Overruns(text.value, f, b, Init(f))
    {
      overran := false;
      if text.None? {
        return;
      }
      var s := text.value;
      calls := calls + [SetFont(f), SetTextWrap(false)];
      ghost var base := calls;
      var st := Init(f);
      while true
        invariant Wf(s, st)
        invariant calls + Render(s, Run(s, f, b, st)) == base + Render(s, Run(s, f, b, Init(f)))
        invariant Overruns(s, f, b, st) == Overruns(s, f, b, Init(f))
        decreases NulPos(s) - st.t
      {
        var next, done;
        next, done, overran := Advance(s, f, b, st);
        if done {
          return;
        }
        st := next;
      }
    }

    /** One turn, stated against `Run`: what is left to print after it is what was left before, less what it printed. */
    method Advance(s: string, f: Font, b: Box, st: Scan) returns (next: Scan, done: bool, overran: bool)
      requires ValidFont(f) && Wf(s, st)
      modifies this
      ensures done ==> calls == old(calls) + Render(s, Run(s, f, b, st)) && overran == Overruns(s, f, b, st)
      ensures !done ==> Wf(s, next) && next.t > st.t && Overruns(s, f, b, next) == Overruns(s, f, b, st) &&
                        calls + Render(s, Run(s, f, b, next)) == old(calls) + Render(s, Run(s, f, b, st))
    {
      ghost var r := Step(s, f, b, st);
      next, done, overran := Turn(s, f, b, st);
      RunUnfold(s, f, b, st);
      OverrunsUnfold(s, f, b, st);
      if !done {
        ghost var rest := Run(s, f, b, next);
        RenderAppend(s, r.out, rest);
        assert calls + Render(s, rest) == old(calls) + (Render(s, r.out) + Render(s, rest));
      }
    }

    /** One turn of the `for` loop: read the character at `st.t` and act on it. */
    method Turn(s: string, f: Font, b: Box, st: Scan) returns (next: Scan, done: bool, overran: bool)
      requires ValidFont(f) && Wf(s, st)
      modifies this
      ensures var r := Step(s, f, b, st);
              done == !r.Continue? && overran == r.Overrun? && calls == old(calls) + Render(s, r.out) &&
              (!done ==> next == r.next)
    {
      next := st;
      done, overran := false, false;
      var c := s[st.t];
      if c == '\0' {
        // end of text: print the pending line
        EmitLine(s, b, st, st.startLine, NulPos(s));
        done := true;
        return;
      }
      if c == '\n' {
        EmitLine(s, b, st, st.startLine, st.t);
        next := st.(t := st.t + 1, startLine := st.t + 1, yPos := st.yPos + f.yAdvance, inWord := false, xPos := 0);
        return;
      }
      var cw := CharWidth(c, f);
      if st.xPos + cw > b.w {
        next, overran := Break(s, f, b, st, cw);
        done := overran;
      } else if st.yPos + CharDescent(c, f) > b.h {
        done := true;
        assert Step(s, f, b, st).out == [];
      } else if IsSpace(c) {
        next := st.(t := st.t + 1, inWord := false, wordBreak := st.t + 1, wordBreakXPos := st.xPos + cw,
                    xPos := st.xPos + cw);
      } else if !st.inWord {
        next := st.(t := st.t + 1, inWord := true, wordBreak := st.t, wordBreakXPos := st.xPos,
                    xPos := st.xPos + cw);
      } else {
        next := st.(t := st.t + 1, xPos := st.xPos + cw);
      }
    }

    /** The three ways to break a line when the character at `st.t` does not fit. */
    method Break(s: string, f: Font, b: Box, st: Scan, cw: int) returns (next: Scan, overran: bool)
      requires Wf(s, st) && st.t < NulPos(s) && s[st.t] != '\n'
      modifies this
      ensures var r := Overflow(s, f, b, st, cw);
              calls == old(calls) + Render(s, r.out) && overran == r.Overrun? && (!overran ==> next == r.next)
    {
      overran := false;
      if IsSpace(s[st.t]) {
        next, overran := BreakAtSpace(s, f, b, st, cw);
      } else if st.startLine == st.wordBreak {
        // a word longer than the line: hard break
        EmitLine(s, b, st, st.startLine, st.t);
        next := st.(t := st.t + 1, startLine := st.t, wordBreak := st.t, yPos := st.yPos + f.yAdvance,
                    xPos := cw, wordBreakXPos := cw);
      } else {
        // inside a word: break before it; a line start past the break prints nothing
        EmitLine(s, b, st, st.startLine, st.wordBreak);
        var start := if st.startLine < st.wordBreak then st.wordBreak else st.startLine;
        next := st.(t := st.t + 1, startLine := start, yPos := st.yPos + f.yAdvance,
                    xPos := st.xPos - st.wordBreakXPos + cw, wordBreakXPos := 0);
      }
    }

    /**
     * At a space: break here, and start the next line after the blanks.
     * The `continue` then reads one past the new line start, which is past
     * the terminator when the blanks reach it (`overran`).
     */
    method BreakAtSpace(s: string, f: Font, b: Box, st: Scan, cw: int) returns (next: Scan, overran: bool)
      requires Wf(s, st) && st.t < NulPos(s) && IsSpace(s[st.t]) && s[st.t] != '\n'
      modifies this
      ensures calls == old(calls) + Render(s, Line(b, st, st.startLine, st.t))
      ensures overran == SpaceBreak(s, f, st, cw).None? && (!overran ==> next == SpaceBreak(s, f, st, cw).value)
    {
      EmitLine(s, b, st, st.startLine, st.t);
      var t := SkipSpaces(s, st.t);
      if s[t] == '\n' {
        t := t + 1;
      }
      next := st.(t := t + 1, startLine := t, yPos := st.yPos + f.yAdvance, xPos := cw);
      overran := s[t] == '\0';
    }

    /** Move the cursor to the left edge of the current baseline and print the characters `from..to - 1`. */
    method EmitLine(s: string, b: Box, st: Scan, from: nat, to: nat)
      requires to <= |s|
      modifies this
      ensures calls == old(calls) + Render(s, Line(b, st, from, to))
    {
      calls := calls + [SetCursor(b.x, b.y + st.yPos)];
      RenderAppend(s, [Cursor(b.x, b.y + st.yPos)], Chars(from, to));
      if from < to {
        PrintRange(s, from, to);
      } else {
        assert Chars(from, to) == [];
      }
    }

    /** `while (isspace(*t) && *t != '\n') t++;` */
    method SkipSpaces(s: string, from: nat) returns (t: nat)
      requires '\0' in s && from <= NulPos(s)
      ensures t == SkipBlanks(s, from)
    {
      t := from;
      while IsSpace(s[t]) && s[t] != '\n'
        invariant from <= t <= NulPos(s) && SkipBlanks(s, t) == SkipBlanks(s, from)
        decreases NulPos(s) - t
      {
        t := t + 1;
      }
    }
  }
}
